# Local SEO rank tracker — verified model of the core

This project models the core of the local-SEO rank tracker: its server routes and dashboard logic. The model is written in Dafny, and the Dafny verifier proves properties of it. The modules follow the program's parts:

- **Rank-tracking cron job** (`Schedule`, `Snapshots`, `Alerts`, `Tracker`, `CronAuth`):
  - the `isDue` check;
  - ranking a provider list into snapshot items;
  - the change check that decides whether a snapshot is stored;
  - `buildAlerts`;
  - the `GET` handler's loop over due schedules, including `last_run_at` bookkeeping.
- **Site scanner** (`Findings`, `Crawl`, `ScanRequest`):
  - the `buildFindings` rule table and `totalFindings`;
  - `normalizeUrl`;
  - the breadth-first `discoverLinks` crawl;
  - the clamped request parameters and mode plan;
  - the `addElements` highlight selection.
- **Movement lists** (`JsMap`, `StableSort`, `Movement`, `SnapshotPairs`):
  - JavaScript's `new Map(pairs)`, where the last pair wins;
  - the stable comparator sort;
  - the "top movers" pipeline;
  - the per-cohort snapshot grouping, which the two dashboard widgets share.
- **Shared report data** (`Reports`): `getReportDataBySlug`.
- **Dashboard widgets** (`LiveMovement`, `StatsSummary`): `loadMovement` and `loadStats`.
- **Retention cron job** (`Prune`): `getRetentionDays` and the two batch-delete loops over tables that are mutated in place.
- **Subscription refresh** (`StripeRefresh`): resolving the customer, choosing the subscription and the row that is upserted.
- **Request proxy** (`Proxy`): the redirect decision and the matcher.

Instants are integer milliseconds since the Unix epoch.

The database, the search provider, Stripe and the browser are not modelled as services. Their answers are inputs to the model: values, functions of a request, or per-batch fault flags. In the rank-tracking run this includes the failures the handler ignores: a failed item insert, alert insert or `last_run_at` update. The runtime's `toLowerCase` is also an input, a function on strings.

## Model

The table lists the members whose contracts state something. A definition that only computes, such as `Movement.TopMovers`, `Tracker.RunEffect` or `Snapshots.HasChanges`, is described through the row of the lemma or method that states its properties.

| member | source | states |
|---|---|---|
| CronAuth.Authorized | app/api/cron/track/route.ts:151-157 | access is granted iff the secret is set, is non-empty, and equals the token; a granted token is therefore non-empty |
| Schedule.UtcHour | app/api/cron/track/route.ts:44 | the UTC hour of an instant lies in 0..23 |
| Schedule.UtcWeekday | app/api/cron/track/route.ts:55 | the UTC weekday lies in 0..6, with 0 meaning Sunday |
| Schedule.IsDue | app/api/cron/track/route.ts:40-59 | a due schedule is active and in its UTC hour; a weekly one is also on its weekday (default Monday) and strictly after its last run |
| Schedule.UtcDayBounds | app/api/cron/track/route.ts:49-51 | the day index of an instant is the unique d with d·day ≤ t < (d+1)·day |
| Schedule.SameUtcDateIff | app/api/cron/track/route.ts:49-51 | two instants share a calendar day interval iff their day indexes are equal |
| Schedule.DailyDueIff | app/api/cron/track/route.ts:47-52 | inside its hour, an active daily schedule is due iff it never ran or last ran on another UTC date |
| Schedule.WeeklyDueIff | app/api/cron/track/route.ts:54-58 | an active weekly schedule in its hour is never due on another weekday; on its weekday it is due iff it never ran or ran more than six days ago |
| Schedule.DailyRunsOncePerDate | app/api/cron/track/route.ts:47-52 | after a run, a daily schedule is not due again on the same UTC date |
| Schedule.WeeklyRunsOncePerWeek | app/api/cron/track/route.ts:54-58 | after a run, a weekly schedule is not due for six days |
| Schedule.WeeklyFiveAndSevenDays | app/api/cron/track/route.ts:54-58 | a last run five days ago is not due; one seven days ago is due |
| Snapshots.RankPlaces | app/api/cron/track/route.ts:281-291 | item i is place i with rank i+1, and its rating and count are kept |
| Snapshots.RanksContiguous | app/api/cron/track/route.ts:281-291 | ranks run 1..n with no gap or repeat |
| Snapshots.PrevEntryOf | app/api/cron/track/route.ts:224-233 | an id is in the change check's map iff some previous item has it, and the map holds the last such item's rank, rating and count |
| Snapshots.LastWithIdExists | app/api/cron/track/route.ts:224-233 | an id that occurs in the previous list has a last occurrence |
| Snapshots.UnchangedIff | app/api/cron/track/route.ts:235-248 | against a non-empty previous list, "unchanged" holds iff the lengths are equal and every place i matches the last previous item with its id at rank i+1, rating and count |
| Snapshots.IdenticalListUnchanged | app/api/cron/track/route.ts:235-248 | a list with distinct ids is unchanged against its own snapshot |
| Snapshots.RepeatedPlaceAlwaysChanged | app/api/cron/track/route.ts:224-248 | a list that repeats a place id always counts as changed, even against its own snapshot |
| Snapshots.FirstSnapshotAlwaysStored | app/api/cron/track/route.ts:212-223 | with no stored snapshot, or an empty one, the list counts as changed |
| Alerts.PrevMapIsLastItem | app/api/cron/track/route.ts:73-75 | `prevMap.get(id)` is the last previous item with that id |
| Alerts.LastItemNone | app/api/cron/track/route.ts:73-75 | that lookup is empty iff no previous item has the id |
| Alerts.RankDrops | app/api/cron/track/route.ts:77-85 | the drops list is no longer than the current list |
| Alerts.NewEntrants | app/api/cron/track/route.ts:96-98 | the new top-three list is no longer than the current list |
| Alerts.FirstMatch | app/api/cron/track/route.ts:110-112 | no match iff no lower-cased name contains the lower-cased business name, with `toLowerCase` given as a function; a match is the first name that does |
| Alerts.RankDropAlerts | app/api/cron/track/route.ts:87-94 | one rank_drop alert iff the drops list is non-empty |
| Alerts.NewTopThreeAlerts | app/api/cron/track/route.ts:100-107 | one new_top_three alert iff some entrant exists |
| Alerts.BusinessAlerts | app/api/cron/track/route.ts:109-121 | at most one business_out_of_top alert |
| Alerts.BuildAlerts | app/api/cron/track/route.ts:61-124 | at most 3 alerts, in strictly increasing type order: rank_drop, new_top_three, business_out_of_top |
| Alerts.RankDropsAppend | app/api/cron/track/route.ts:77-85 | the drops of a concatenation are the concatenated drops, so current order is kept |
| Alerts.RankDropsMembers | app/api/cron/track/route.ts:77-85 | a drop is listed iff it is the delta of a current item with a previous entry and that delta is ≤ -3 |
| Alerts.DropsCorrespond | app/api/cron/track/route.ts:73-85 | the same statement, phrased against the previous list |
| Alerts.RankDropAlertIff | app/api/cron/track/route.ts:77-94 | a rank_drop alert exists iff some previously seen place dropped 3 or more places; it comes first, lists the drops, and is high iff some delta is ≤ -5 (otherwise medium) |
| Alerts.NewEntrantsMembers | app/api/cron/track/route.ts:96-98 | an item is an entrant iff it is current, ranked ≤ 3, and absent from the map |
| Alerts.NewTopThreeAlertIff | app/api/cron/track/route.ts:96-107 | one medium new_top_three alert iff some current top-three item has an id no previous item has |
| Alerts.EmptyPreviousAllTopThree | app/api/cron/track/route.ts:96-98 | with an empty previous list, the entrants are exactly the current top three |
| Alerts.BusinessAlertIff | app/api/cron/track/route.ts:109-121 | considered only for a non-empty name; fires iff there is no match or the first match ranks above 10; high severity; carries the match's rank or none |
| Alerts.DropOfFourIsMedium | app/api/cron/track/route.ts:77-94 | a fall from 2 to 6 gives one medium rank_drop alert, listed first, with delta -4 |
| Alerts.BusinessBelowTopTen | app/api/cron/track/route.ts:109-121 | a matching business at rank 12 raises business_out_of_top with rank 12 |
| Alerts.CaseMatchBeyondAscii | app/api/cron/track/route.ts:110-112 | when `toLowerCase` maps "MÜLLER" and "Müller" to "müller", the business matches at rank 5 and no alert is raised |
| Tracker.StoredAlerts | app/api/cron/track/route.ts:303-312 | one stored row per alert |
| Tracker.InsertedAlerts | app/api/cron/track/route.ts:302-312 | no more rows than alerts |
| Tracker.InsertedAlertsSpec | app/api/cron/track/route.ts:302-312 | a row is stored iff it belongs to an alert whose insert did not fail; with no failed insert, every alert is stored in order |
| Tracker.DueSchedules | app/api/cron/track/route.ts:180-182 | a schedule is due-listed iff it is a fetched row and `isDue` holds for it |
| Tracker.Runs | app/api/cron/track/route.ts:186-336 | the runs pair each due schedule, in order, with what its iteration does |
| Tracker.Results | app/api/cron/track/route.ts:184-335 | one result per run, holding its schedule id and status |
| Tracker.Store.constructor | app/api/cron/track/route.ts:184 | the run starts with no writes and no results |
| Tracker.Store.RunSchedule | app/api/cron/track/route.ts:186-336 | one iteration has the status, snapshot rows, alert rows and `last_run_at` update of its specification (including ignored insert and update errors), and appends its result |
| Tracker.Store.StoreChanges | app/api/cron/track/route.ts:281-335 | after the snapshot row is inserted, the rest of the iteration matches the same specification |
| Tracker.Store.UpdateLastRun | app/api/cron/track/route.ts:324-327 | `last_run_at` becomes now iff the update succeeds; nothing else changes |
| Tracker.Store.DeliverAlerts | app/api/cron/track/route.ts:297-322 | alerts are inserted in order, and a failed insert stores nothing; a send that throws at alert k stops the loop after the inserts of alerts 0..k; nothing else changes |
| Tracker.Store.Get | app/api/cron/track/route.ts:149-342 | unauthorised or a failed schedule query writes nothing; otherwise the writes and results are those of the runs of the due schedules, in order, and `checked` equals their number |
| Tracker.Store.RunAll | app/api/cron/track/route.ts:186-336 | the loop's writes are the folds of the per-run effects |
| Tracker.DetectChanges | app/api/cron/track/route.ts:212-250 | the loop computes `hasChanges` |
| Tracker.RunStep | app/api/cron/track/route.ts:186-336 | one more run extends each fold by that run's effect |
| Tracker.PrefixStep | app/api/cron/track/route.ts:186-336 | how each fold grows by one run |
| Tracker.AdvancesOnlyOnCleanRuns | app/api/cron/track/route.ts:252-335 | the handler updates `last_run_at` iff the run ends "no_changes" or "success", and the update takes effect iff it also does not fail; a failed snapshot insert writes nothing |
| Tracker.SnapshotOnlyWhenChanged | app/api/cron/track/route.ts:252-293 | a snapshot is written only for a fetched, changed list whose insert succeeded: exactly one snapshot, whose items are the ranked provider list (place i at rank i+1) or none when the item insert failed |
| Tracker.ApplyRunsSpec | app/api/cron/track/route.ts:252-329 | a schedule's `last_run_at` becomes now iff one of its runs updated it successfully; otherwise it keeps its value |
| Findings.RuleAt | app/api/scan/route.ts:57-195 | the rule at each table position has that position |
| Findings.PushIf | app/api/scan/route.ts:60-192 | one `if` block extends the selection by its rule's finding exactly when the rule fires |
| Findings.BuildFindings | app/api/scan/route.ts:57-195 | the result is the reference list (one finding per firing rule, in table order) and holds at most 13 findings |
| Findings.SeoFindings | app/api/scan/route.ts:60-118 | the SEO blocks select the first seven rules' findings, and at most 5 of them |
| Findings.PushAccessibilityFindings | app/api/scan/route.ts:120-155 | the accessibility blocks add at most 4 findings |
| Findings.PushGdprFindings | app/api/scan/route.ts:157-192 | the GDPR blocks add at most 4 findings |
| Findings.SelectMembers | app/api/scan/route.ts:57-195 | a rule's finding is selected iff the rule is in range and fires |
| Findings.SelectSound | app/api/scan/route.ts:57-195 | every selected finding is its rule's table entry, and that rule fires |
| Findings.SelectOrdered | app/api/scan/route.ts:57-195 | the selection follows strictly increasing table order |
| Findings.ReferenceTable | app/api/scan/route.ts:57-195 | the list holds exactly the findings of firing rules, each once and in table order |
| Findings.Utf16Length | app/api/scan/route.ts:67 | `title.length` counts UTF-16 code units: between one and two per character |
| Findings.Utf16LengthIff | app/api/scan/route.ts:67 | the UTF-16 length equals the character count iff every character lies in the Basic Multilingual Plane |
| Findings.AstralTitleLength | app/api/scan/route.ts:67 | a 14-character title that ends in an emoji has length 15 |
| Findings.TitleAndHeadingRules | app/api/scan/route.ts:60-100 | a missing or empty title gives one high finding; a title whose length in UTF-16 code units lies outside 15..65 gives one medium finding; never both; no H1 gives a high finding, more than one a low finding, exactly one neither |
| Findings.OpenGraphAndCountRules | app/api/scan/route.ts:111-146 | one low Open Graph finding iff a tag is missing; each count finding appears iff its count is > 0 and carries the count |
| Findings.GdprRules | app/api/scan/route.ts:157-192 | missing privacy, cookie, terms and consent signals give high, medium, low and medium GDPR findings respectively |
| Findings.TotalFindingsAppend | app/api/scan/route.ts:501-504 | the total over two page lists is the sum of their totals |
| Findings.TotalFindingsBound | app/api/scan/route.ts:501-504 | pages with at most 13 findings each total at most 13 per page |
| Crawl.NormalizeUrl | app/api/scan/route.ts:48-55 | the fragment is cleared; the path loses exactly one trailing `/` unless it is `/`; nothing else changes |
| Crawl.NormalizeIdempotentIff | app/api/scan/route.ts:48-55 | normalising twice equals normalising once iff the path is not at least 3 characters ending in `//` |
| Crawl.NormalizeKeepsNonApi | app/api/scan/route.ts:469-470 | a path outside `/api` stays outside it after normalisation |
| Crawl.ResolvedPrefixSpec | app/api/scan/route.ts:466-476 | the processed links are the resolved hrefs before the first href that throws |
| Crawl.EligibleSpec | app/api/scan/route.ts:466-470 | every eligible link is normalised, same-origin and outside `/api`, and every such link is eligible in normalised form |
| Crawl.PushedSpec | app/api/scan/route.ts:466-473 | pushed entries are exactly the eligible links not yet visited, at the given depth |
| Crawl.ResolvedStep | app/api/scan/route.ts:466-476 | a resolved href extends the prefix; an unresolvable one ends it |
| Crawl.PushedStep | app/api/scan/route.ts:466-473 | pushing distributes over one more link |
| Crawl.EnqueueLinks | app/api/scan/route.ts:466-476 | the link loop appends exactly the pushed entries of the resolved prefix |
| Crawl.DiscoverLinks | app/api/scan/route.ts:432-487 | visits are distinct and start with the normalised base; a loop that runs stops as soon as `maxPages` is reached; every visit is within `maxDepth` and was reached from an earlier visit's links; `maxDepthFound` is the largest visited depth; `sampleUrls` is the first 10 visits; visit depths never decrease (breadth-first order); a crawl that stops below `maxPages` has visited every same-origin link of each page whose depth allows one more level |
| Crawl.VisitHead | app/api/scan/route.ts:452-473 | visiting the head entry appends it to the visits with its depth, raises `maxDepthFound` to it when larger, queues exactly what its page adds, and keeps the crawl invariant |
| Crawl.CrawlStep | app/api/scan/route.ts:448-476 | one dequeue keeps the crawl invariant, and either skips the entry or visits it |
| Crawl.Visit | app/api/scan/route.ts:452-456 | visiting an unvisited entry within the depth budget keeps the crawl tree |
| Crawl.KeepQueue | app/api/scan/route.ts:450-456 | queued entries keep their provenance |
| Crawl.AddedSpec | app/api/scan/route.ts:466-473 | a visited page's new entries are one level deeper and cover every eligible link not yet visited |
| Crawl.PushedCovers | app/api/scan/route.ts:466-473 | every eligible link that is not yet visited is pushed |
| Crawl.SkipKeepsFrontier | app/api/scan/route.ts:450-453 | skipping a head entry that is visited or too deep keeps breadth-first order and loses no link |
| Crawl.VisitKeepsOrder | app/api/scan/route.ts:448-473 | visiting the head and queueing entries one level down keeps breadth-first order |
| Crawl.VisitKeepsLinks | app/api/scan/route.ts:452-473 | visiting the head and queueing every unvisited link of its page keeps every link of a visited page reached |
| Crawl.VisitKeepsFrontier | app/api/scan/route.ts:448-476 | one visit keeps the frontier: breadth-first order, and no link of a visited page lost |
| Crawl.Requeue | app/api/scan/route.ts:472 | new entries are pushed by the page just visited, one level deeper |
| ScanRequest.Setting | app/api/scan/route.ts:639-652 | a finite number is clamped into [lo, hi]; anything else gives the default |
| ScanRequest.MaxPages | app/api/scan/route.ts:639-642 | lies in [1, 50], is 20 by default, and keeps values already in range |
| ScanRequest.MaxDepth | app/api/scan/route.ts:643-646 | lies in [0, 3], is 2 by default, and keeps values already in range |
| ScanRequest.HighlightLimit | app/api/scan/route.ts:648-652 | lies in [0, 10], is 5 by default, and keeps values already in range |
| ScanRequest.PlanFor | app/api/scan/route.ts:670-720 | discover mode crawls 40 pages to depth 3; the other modes crawl only in full mode, with exactly the clamped `maxPages` and `maxDepth`, and highlight iff the limit is > 0 |
| ScanRequest.AddElements | app/api/scan/route.ts:358-365 | the loop computes `addElements` |
| ScanRequest.AddedSpec | app/api/scan/route.ts:358-365 | earlier highlights stay in front; distinctness is kept; new ones come from the elements; the loop adds nothing once the limit is reached; it stops early only at the limit |
| ScanRequest.HighlightsSpec | app/api/scan/route.ts:355-423 | the highlights are distinct, drawn from the three lists, at most 10, and at most the limit when it is whole; every offending element is included unless the limit is reached |
| JsMap.KeyIn | app/lib/reports/report-data.ts:96-98 | a key is in `new Map(pairs)` iff some pair carries it |
| JsMap.LastWins | app/lib/reports/report-data.ts:96-98 | the last pair with a key gives that key's value |
| JsMap.ValueFromPair | app/lib/reports/report-data.ts:96-98 | every bound value comes from a pair with that key |
| JsMap.DistinctKeysLookup | app/lib/reports/report-data.ts:96-98 | with distinct keys, every pair's value is bound |
| StableSort.SortDescCorrect | app/components/LiveMovement.tsx:101 | the comparator sort orders by non-increasing key, is a permutation, and keeps input order among equal keys |
| Movement.DeltasMembers | app/lib/reports/report-data.ts:100-108 | a move is listed iff it is a latest item that passes the guard, with its previous rank minus its rank; the list is no longer than the latest items |
| Movement.LastRowOf | app/lib/reports/report-data.ts:96-98 | an id that occurs has a last occurrence |
| Movement.PreviousRankOf | app/lib/reports/report-data.ts:96-98 | a place has a previous rank iff some previous row has its id, and the rank is the last such row's |
| Movement.WithKeyPrefix | app/lib/reports/report-data.ts:110 | truncation keeps, for each magnitude, a prefix of the entries with that magnitude |
| Movement.CutKeepsLargest | app/lib/reports/report-data.ts:109-110 | cutting a sorted list leaves out nothing larger than what it keeps |
| Movement.CutRest | app/lib/reports/report-data.ts:110 | what a cut leaves out is the rest of the list |
| Movement.CutSorted | app/lib/reports/report-data.ts:110 | a cut of a sorted list is sorted and is a sub-multiset |
| Movement.TopMoversSpec | app/lib/reports/report-data.ts:100-110 | min(limit, #kept) moves in non-increasing \|delta\|, drawn from the kept moves; no left-out move is larger than a shown one; equal magnitudes keep the latest items' order |
| Movement.TopMoversBasics | app/components/LiveMovement.tsx:93-102 | the list is bounded by the limit and by the latest items, ordered, and drawn from the kept moves |
| Movement.NothingKept | app/components/LiveMovement.tsx:93-99 | nothing is kept against an empty map |
| Movement.NoPreviousNoMovers | app/lib/reports/report-data.ts:96-110 | with no previous items, the list is empty |
| Reports.GetReportData | app/lib/reports/report-data.ts:40-122 | not found, then expired, then cohort not found, in that order; data iff the report exists and is unexpired; latest and previous are the first two snapshots; without a latest snapshot, items and deltas are empty; deltas are computed only with a previous snapshot, and are then the top 6 movers with the `=== undefined` guard |
| Reports.ReportDeltasSpec | app/lib/reports/report-data.ts:96-110 | at most 6 movers and no more than the items; each mover is a listed place with a previous rank and delta prevRank − rank; the list is ordered, and nothing left out moved more than a shown mover |
| SnapshotPairs.Find | app/components/LiveMovement.tsx:51 | the map lookup: -1 iff no entry has the cohort, otherwise an entry for it |
| SnapshotPairs.GroupSnapshots | app/components/LiveMovement.tsx:49-56 | the `forEach` builds the grouping |
| SnapshotPairs.CohortsDistinct | app/components/StatsSummary.tsx:61-68 | map keys are distinct and are exactly the cohorts that occur |
| SnapshotPairs.OfAbsentCohort | app/components/StatsSummary.tsx:61-68 | a cohort that has not occurred has no snapshots |
| SnapshotPairs.GroupDescribes | app/components/StatsSummary.tsx:61-68 | the grouping lists each cohort in first-appearance order with the first two of its snapshots |
| SnapshotPairs.GroupSpec | app/components/LiveMovement.tsx:49-56 | keys are distinct; each entry holds 1 or 2 snapshots, which are the first ones of its cohort in query order; every snapshot's cohort has an entry |
| SnapshotPairs.OfCohortMember | app/components/StatsSummary.tsx:61-68 | a snapshot belongs to its own cohort's list |
| LiveMovement.Latest | app/components/LiveMovement.tsx:58-70 | a chosen pair has two snapshots |
| LiveMovement.LatestSpec | app/components/LiveMovement.tsx:58-70 | none is chosen iff no cohort has two snapshots; otherwise the choice is the first full pair with the strictly newest latest snapshot |
| LiveMovement.SelectLatestPair | app/components/LiveMovement.tsx:58-70 | the loop computes the choice |
| LiveMovement.LoadMovement | app/components/LiveMovement.tsx:36-103 | signed out gives an empty list; without a full pair the list is empty; otherwise the top 5 movers of the chosen pair's two snapshots, with the `!prevRank` guard |
| LiveMovement.LatestItemsOfSpec | app/components/LiveMovement.tsx:84-87 | the filter keeps exactly the rows of that snapshot |
| LiveMovement.LiveMoversSpec | app/components/LiveMovement.tsx:89-102 | at most 5 movers in non-increasing \|delta\|; each is a latest item whose previous rank is other than 0, with delta prevRank − rank |
| StatsSummary.GroupItems | app/components/StatsSummary.tsx:84-89 | the loop builds the items-by-snapshot map |
| StatsSummary.ItemsByIdSpec | app/components/StatsSummary.tsx:84-89 | each snapshot's list is exactly its rows in order, and a snapshot without rows gets an empty list |
| StatsSummary.TallyCohort | app/components/StatsSummary.tsx:102-115 | the loop computes the cohort's accumulators |
| StatsSummary.TallySpec | app/components/StatsSummary.tsx:102-115 | the accumulators are the sum, the number, and the number of non-zero deltas of the matched items, so alerts ≤ count ≤ \|latest\| |
| StatsSummary.TallyPairs | app/components/StatsSummary.tsx:91-129 | the loop over the pairs computes the totals |
| StatsSummary.LoadStats | app/components/StatsSummary.tsx:41-130 | signed out gives the placeholder summary; tracked postcodes is the number of cohorts; the item query runs iff there are at least 2 snapshot ids; otherwise the totals are zero |
| StatsSummary.AccumulateSpec | app/components/StatsSummary.tsx:91-129 | totalPairs equals the number of lift terms and is at most the number of two-snapshot cohorts; every term counts ≥ 1 item; weekly alerts ≤ the items counted |
| StatsSummary.FewIdsNoFullPair | app/components/StatsSummary.tsx:70-78 | a cohort with two snapshots implies at least two ids |
| StatsSummary.SkippedLookupIsZero | app/components/StatsSummary.tsx:74-78 | skipping the lookup loses nothing: every total would be zero anyway |
| StatsSummary.StaleCohortsNoWeeklyAlerts | app/components/StatsSummary.tsx:121-127 | cohorts whose newest snapshot is over 7 days old add no weekly alerts |
| Prune.RetentionDays | app/api/cron/prune/route.ts:10-14 | a non-finite value gives the fallback; any other value is clamped into [7, 365] |
| Prune.DefaultsInRange | app/api/cron/prune/route.ts:6-7 | the defaults 90 and 120 lie inside the clamp, so the result is always in [7, 365] |
| Prune.UnsetAndEmptySettings | app/api/cron/prune/route.ts:10-33 | an unset variable gives the default; an empty one gives 7 days |
| Prune.OlderIds | app/api/cron/prune/route.ts:46-50 | a select returns at most `limit` ids |
| Prune.OlderKeptSizes | app/api/cron/prune/route.ts:49 | the older and kept rows partition the table |
| Prune.DropOlderSpec | app/api/cron/prune/route.ts:45-71 | removing the first k older rows shrinks the table by k and leaves the kept rows alone |
| Prune.OlderPrefixIds | app/api/cron/prune/route.ts:60 | selected ids belong to rows of the table |
| Prune.AbsentIdIrrelevant | app/api/cron/prune/route.ts:61-64 | deleting an id that no row has changes nothing |
| Prune.DropOlderTwice | app/api/cron/prune/route.ts:45-71 | removing a older rows and then b more is removing a+b |
| Prune.DropNone | app/api/cron/prune/route.ts:45-71 | dropping zero rows is the identity |
| Prune.DeleteNothing | app/api/cron/prune/route.ts:61-64 | deleting no ids is the identity |
| Prune.DeleteBatch | app/api/cron/prune/route.ts:60-64 | with unique ids, deleting a selected batch removes exactly the first k older rows |
| Prune.WithoutUnique | app/api/cron/prune/route.ts:61-64 | deleting any ids keeps the remaining ids unique |
| Prune.DropOlderUnique | app/api/cron/prune/route.ts:61-64 | removing rows keeps ids unique |
| Prune.BatchStep | app/api/cron/prune/route.ts:46-70 | a batch holds ≤ 500 ids; deleting it removes exactly the first that many older rows, so it keeps the kept rows; a non-empty batch reduces the older rows |
| Prune.NoOlderAllKept | app/api/cron/prune/route.ts:56-58 | a table with no older row is its own kept part |
| Prune.KeptHasNoOlder | app/api/cron/prune/route.ts:45-71 | the kept part holds no row before the cutoff |
| Prune.Table.constructor | app/api/cron/prune/route.ts:45 | a table starts as the given rows |
| Prune.Table.SelectOlder | app/api/cron/prune/route.ts:46-50 | a select returns at most `limit` ids |
| Prune.Table.Delete | app/api/cron/prune/route.ts:61-64 | the rows after a delete are the old rows without the given ids, and ids stay unique |
| Prune.DeleteOlder | app/api/cron/prune/route.ts:45-71 | the loop ends normally iff no select or delete error it reaches occurs (a select in batch j runs iff 500·(j−1) < #older, a delete iff 500·j < #older); it then ends on the empty select right after the last non-empty batch, leaving exactly the kept rows with the count equal to the rows deleted; an error ends it in the batch where it occurs, with exactly the first min(500·(b−1), #older) older rows removed; kept rows are never touched |
| Prune.RunBatch | app/api/cron/prune/route.ts:46-70 | one iteration either ends the loop with the table unchanged (a select error the loop reaches, an empty select, or a delete error on a non-empty batch) or deletes the batch and keeps the loop's progress invariant |
| Prune.SelectCount | app/api/cron/prune/route.ts:46-50 | after d older rows are removed, the select returns min(500, #older − d) ids |
| Prune.AfterDelete | app/api/cron/prune/route.ts:60-70 | a successful delete of a non-empty batch removes the next older rows and moves the loop to the next batch |
| Prune.BatchCount | app/api/cron/prune/route.ts:46-70 | the count after each batch is min(500·batches, #older), and a batch is empty only once every older row is gone |
| Prune.EndState | app/api/cron/prune/route.ts:45-71 | when the loop ends the kept rows are untouched; a normal end leaves exactly the kept rows; an error leaves the table with the first min(500·batch, #older) older rows removed |
| Prune.EndsIffClean | app/api/cron/prune/route.ts:45-71 | the loop's end decides its outcome: a normal end iff no error it reaches occurs |
| Prune.DoneClean | app/api/cron/prune/route.ts:45-58 | a normal end means no error the loop reaches occurred |
| Prune.FailedNotClean | app/api/cron/prune/route.ts:52-68 | an error in a batch the loop reaches rules out a clean run |
| Prune.FirstDeleteErrorReached | app/api/cron/prune/route.ts:60-68 | with one older row, a delete error in the first batch is reached |
| Prune.LateSelectErrorUnreached | app/api/cron/prune/route.ts:46-58 | with no older row, a select error in batch 1000 is never reached |
| Prune.Get | app/api/cron/prune/route.ts:16-107 | unauthorised touches nothing; on success both tables are exactly their kept parts, the counts are the rows removed, and the reported days are the clamped settings; it answers with the counts iff neither loop reaches a select or delete error, and 500 otherwise; a snapshot-loop error leaves the alerts untouched; an alert-loop error comes after every older snapshot is gone |
| StripeRefresh.ResolveCustomerOrder | app/api/stripe/refresh/route.ts:17-49 | a stored id wins; without one, the e-mail lookup decides; without either there is no customer |
| StripeRefresh.FirstActive | app/api/stripe/refresh/route.ts:68-69 | the position of the first non-canceled subscription, or -1 when all are canceled |
| StripeRefresh.PickSpec | app/api/stripe/refresh/route.ts:68-70 | on a newest-first list, the pick is the newest non-canceled subscription, otherwise the newest |
| StripeRefresh.SelectedSpec | app/api/stripe/refresh/route.ts:65-70 | the selected subscription is in the list; it is a newest non-canceled one when one exists, and a newest one otherwise (a missing `created` counts as 0) |
| StripeRefresh.SameMembers | app/api/stripe/refresh/route.ts:65-67 | sorting keeps the members |
| StripeRefresh.RowFor | app/api/stripe/refresh/route.ts:72-84 | `price_id` is the first item's price, or null when there is none; the row carries the subscription's id and status and the user's id |
| StripeRefresh.Refresh | app/api/stripe/refresh/route.ts:12-90 | no user gives 401; a lookup error gives 500; a customer found by e-mail is recorded, and a failed recording gives 500 and records nothing; no customer gives 404; an empty list gives 404 with no upsert; otherwise the selected subscription's row is upserted and its status is returned |
| Proxy.Route | proxy.ts:37-55 | a signed-out visit to an app route redirects to sign-in from the original path; a signed-in visit to an auth route redirects to the dashboard; every other request passes through (each stated as an iff) |
| Proxy.RoutesDisjoint | proxy.ts:38-40 | no path is both an auth route and an app route |
| Proxy.MatchedPaths | proxy.ts:42-60 | the decisions for each of the three matched paths, signed in and signed out |
| Proxy.NoRedirectLoop | proxy.ts:42-60 | a redirect never leads to a path that redirects the same visitor again |

## Left out

- Playwright and the DOM are left out: `page.goto`, the DOM queries inside `page.evaluate`, `runSafeInteractions`, screenshots, marking highlighted elements, and PDF rendering. These are foreign browser calls. `buildFindings` works on a given page summary, and page loads are an oracle.
- The `discoverLinks` wall-clock time limit is left out because it is nondeterministic. `Crawl.DiscoverLinks` can therefore visit more pages than a run that hits the limit.
- URL parsing, resolution and serialisation (the WHATWG URL Standard) and `isValidUrl` are left out. A URL is the parts the crawler reads or writes.
- Message, e-mail and report texts are not modelled. A finding records its rule; an alert records its type, severity and payload.
- The alert e-mail (the Resend call and its HTML) is not modelled. Only the fact that a send can throw is.
- Database, Supabase auth and Stripe SDK calls are inputs, not modelled. The ordering and `limit` of a query are the store's, so a query answer is taken as given. Cascading deletes are not modelled.
- StatsSummary.LoadStats: `averageLift` and its display string use floating-point division. They are kept as the integer pairs (sum, count) of each term, so the rounding of `toFixed(1)` is not modelled.
- StatsSummary.LoadStats: each pair's `new Date()` is read as one instant `now`.
- StatsSummary.LoadStats: the 7-day test compares integer milliseconds, which matches the source for whole-ms instants.
- Schedule.IsDue: the `toISOString().slice(0, 10)` comparison is modelled as equality of day indexes. This does not cover expanded years (beyond 9999).
- Reports.GetReportData: an `expires_at` that does not parse as a date is modelled as "never expires". The `catch` path for a thrown query is not modelled, and every store answer is a value.
- StripeRefresh.Refresh: the error of the final upsert is ignored by the handler and is not modelled.
- StripeRefresh.Refresh: the in-place `sort` of Stripe's list is modelled on a value, as `StableSort.SortDesc`.
- Prune.Get: the cutoff's ISO string is modelled as its instant in milliseconds. Sub-millisecond parts of a fractional retention value are truncated, as `new Date` does.
- The dashboard refresh listeners and the React state setters are not modelled. The widgets are modelled as the values they set.
- Proxy.Route: a redirect clones the request URL, so its query string is carried over. The model has no query string, and `Decision` records only the target path and `redirectedFrom`.
- The page, layout, map and navigation components are UI only and are not modelled.
