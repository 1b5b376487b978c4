# What the metrics and the read model promise

A Dafny model of the parts of the dashboard's backend whose correctness spans
several functions, whole histories or every interleaving:

- **The correlation engine** (`back/src/dora/`). Merged requests are paired with
  the deployments that carried them through a sorted index; incidents are traced
  to deployments through shared tickets; rates and durations are computed per
  slice and folded back together.
- **The ingestion read model** (`back/src/ingest/`). Two feeds and two
  transports merge into the same rows; a cursor and a reconciliation clock decide
  what is read again.
- **Two meters** (`back/src/auth/login-throttle.ts`, `back/src/api-quota/`),
  proved against the history of the calls made to them.
- **Two list transformations** (`expandSquashes`, `foldEnvironments`).

`dafny verify dfyconfig.toml` checks the whole project.

## How it is laid out

| file | models |
|---|---|
| `Lists.dfy`, `Sorting.dfy`, `Grouping.dfy`, `Names.dfy` | lists, sums, the stable sort, the median, JavaScript's insertion-ordered map, sorted lists of names |
| `Series.dfy` | `sliceRange`, `within` |
| `Carriers.dfy`, `Blame.dfy` | `carriedBy` and its index, `componentMismatches`, `incidentsByDeployment` |
| `LeadTime.dfy`, `FailureRate.dfy`, `Restore.dfy`, `DeployTimes.dfy`, `Folding.dfy` | the metrics per slice, and the fold over slices |
| `Readings.dfy`, `DurationReadings.dfy` | what each single reading of a metric says, read off the events |
| `DoraService.dfy` | `computeOver`: how those are wired over one period |
| `Merge.dfy`, `Store.dfy`, `Columns.dfy` | the merge rules, the store that writes rows through them, and what every column then holds |
| `History.dfy`, `Reconciliation.dfy`, `Interleaving.dfy`, `Endangered.dfy` | what call sequences, whole runs, and concurrent writers step by step and over whole schedules keep |
| `Cadence.dfy`, `Sync.dfy` | the schedule, its cursors, and `SyncService.sync` |
| `LoginThrottle.dfy`, `ApiQuota.dfy` | the two meters |
| `Squashes.dfy`, `Environments.dfy` | the two list transformations |

Code that changes things step by step is a method or a class here, proved equal
to a function of its inputs or of the old state; what is promised is then proved
of that function. Numbers are exact reals, dates integer milliseconds, and a
joined string key is a pair. Events carry an `id`, because the source uses the
objects themselves as map keys.

## What the proofs turned up

Each of these is a lemma with the exact condition under which the code does keep
the promise.

- **A later request on the same ticket hides the cause of an incident.**
  `incidentsByDeployment` keeps one deployment per ticket, the last request's. If
  the fix of an incident names the ticket too and ships after it, the deployment
  that broke it goes unblamed, although its own comment says the incident is tied
  where such a trail exists (dora-metrics.ts:94-102). `Blame.BlamedIff` is the exact condition,
  `Blame.LaterWorkHidesTheCause` the case.
- **With incidents alone as the source, restore time loses the traced ones.**
  The comment says the failure rate and the restore time read the same incidents
  (dora-metrics.ts:216); they do exactly when deployments are read too or nothing was
  traced (`Restore.RestoreReadsEveryIncidentIff`); `Restore.TracedIncidentIsNotRead` is the case.
- **A period of one instant is cut into no slice** while it does hold that
  instant (`Series.SlicingConservesIff`).
- **Skipped runs can leave a hole in the merged listing.** Each advances the
  cursor over what nobody listed, and the next delta starts only the overlap before
  it. Coverage is never broken exactly where every listing joins the ones before it
  (`Schedule.CoverageIsUnbrokenIff`); after any number of skips and failures in a row, the next
  delta answered covers the window exactly where the last skip began no more than
  the overlap past what had been asked (`Schedule.SkipsAreCoveredIff`). An hour's skip leaves
  such a hole (`Schedule.SkipLeavesHole`), until the next full run (`Schedule.FullRunCovers`).
- **What one writer established, an overtaken one can take back.** Each fact has its
  losing step, exactly: merge dates (`Interleaving.MergeDateIsLostIff`), lead-time dates
  (`Interleaving.LeadTimeDatesAreLostIff`), pipeline statuses and durations
  (`Interleaving.PipelineIsSetBackIff`), deployment statuses (`Interleaving.StatusGoesBackIff`). Schedules
  from two loads come to each of them (`Interleaving.MergeDateCanBeLost`,
  `Interleaving.LeadTimeDatesCanBeLost`, `Interleaving.PipelineCanBeSetBack`,
  `Interleaving.StatusCanGoBack`). Over whole schedules a fact is kept by all of them exactly
  where no writer already under way would overwrite it unknown
  (`Endangered.MergeIsKeptIff` and its three companions), and with one writer at a time
  nothing is lost (`History.NothingEstablishedIsLost`).
- **A quota answer of a window before, coming late, displaces the running one**
  exactly when its count is not lower than the one held (`QuotaPressure.LatestWindowIsHeldIff`,
  `QuotaPressure.LateAnswerDisplaces`).
- **An id listed twice in one batch** loses no fact a row had, but a date one of
  its readings states is blank afterwards exactly where the row had none and the
  last of the readings dated latest does not state it (`History.StatedDateIsBlankIff`,
  `History.RepeatedReadingBlanks`).

A replayed run changes nothing, for the ids the connectors build, which name their
repository (`Reconciliation.ReplayIsIdentity`). The general form says which ids that takes:
one stored under a repository out of scope and read, stale, under another would be
pruned by the first run and created afresh by the second
(`Reconciliation.ReplayIsIdentityIff`).

## Model

| member | source | states |
|---|---|---|
| Series.SlicesPartition | back/src/dora/series.ts:25-42 | at most `maxSlices` slices, flush with both ends of the period, each opening a millisecond after the last ended, and of a full day or more when there are several, whatever the rounding did |
| Series.SlicesAreEven | back/src/dora/series.ts:31-39 | as many slices as asked and whole days allow, each starting at its equal share of the period rounded to the nearest millisecond, halves up |
| Series.ExactlyOneSlice | back/src/dora/series.ts:20-23 | an instant is within exactly one slice if it is within the period, and within none otherwise |
| Series.CountsAddUp | back/src/dora/dora.service.ts:247-252 | the events the slices hold add up to those the period holds |
| Series.SlicingConservesIff | back/src/dora/series.ts:29 | slicing loses no event for all event lists if and only if the period is inverted, or the cut is not refused |
| Sorting.MedianOfPermutation | back/src/dora/dora-metrics.ts:707-712 | a median depends on the values and not on their order |
| Sorting.MedianIsMiddle | back/src/dora/dora-metrics.ts:707-712 | put in order, the values have the median in the middle, or halfway between their two middles |
| Sorting.MedianHalves | back/src/dora/dora-metrics.ts:707-712 | no more than half the values lie on either side of it |
| Sorting.SortIsStable | back/src/dora/dora-metrics.ts:431-437 | elements of one rank come out of a sort in the order they went in |
| Sorting.SortKeepsTies | back/src/dora/dora-metrics.ts:431-437 | of two elements out of a sort, the first ranks lower, or ranks the same and went in first |
| Grouping.GroupBy | back/src/dora/dora-metrics.ts:677-686 | one bucket per key in order of first appearance, each holding that key's items in input order |
| Carriers.SuccessTimeline | back/src/dora/dora-metrics.ts:401-439 | for every repository and environment: its successes, those stating each component and those silent about it, each sorted by date; nothing indexed by component where no key designates one; environments in order of first success |
| Carriers.EligibleMeans | back/src/dora/dora-metrics.ts:341-364 | what carries a request: a success of its repository, not before its merge, of the same component where both state one under a key that is designated |
| Carriers.FirstAfter | back/src/dora/dora-metrics.ts:446-455 | the binary search finds the oldest of a sorted run not older than the instant, and nothing only if all are older |
| Carriers.LandingAt | back/src/dora/dora-metrics.ts:320-333 | the earliest eligible deployment of one environment, none only if nothing is eligible there; at equal dates one stating the component before a silent one, then the first read |
| Carriers.CarriedBy | back/src/dora/dora-metrics.ts:305-338 | the index answers what a scan would: a request is absent exactly when nothing is eligible, and otherwise has one landing per environment something eligible reached, of minimal date there, ties and order of the landings included |
| Carriers.FoundIsPicked | back/src/dora/dora-metrics.ts:433-455 | what the search finds in the sorted list is, of the list as it was read, the first of those dated earliest and not before the instant |
| Carriers.LandingsAreDetermined | back/src/dora/dora-metrics.ts:313-336 | the order and the picks stated leave one list of landings for a request |
| Carriers.NarrowingOnlyDelays | back/src/dora/dora-metrics.ts:300-304 | whatever is reached with the component test is reached without it, no later |
| Carriers.LeftWithNothing | back/src/dora/dora-metrics.ts:463-472 | a request lost its landings to the component test exactly when some success of its repository follows its merge and every such success names another component |
| Carriers.ComponentMismatches | back/src/dora/dora-metrics.ts:474-491 | without duplicates, the pairs of the requests correlated without the component test and not with it |
| Carriers.LeftOutIsMismatched | back/src/dora/dora-metrics.ts:463-491 | those pairs are exactly the pairs of the mismatched requests |
| Blame.EarliestIsFirst | back/src/dora/dora-metrics.ts:500-505 | the reduction yields the first landing that none precedes, and nothing only for no landing |
| Blame.CarryingIsFirst | back/src/dora/dora-metrics.ts:493-505 | the deployment carrying a request is eligible and no eligible one, in any environment, is earlier; there is none only if nothing is eligible |
| Blame.TicketCarriers | back/src/dora/dora-metrics.ts:112-117 | each ticket maps to the deployment of the last carried request mentioning it |
| Blame.TicketCarrierIsLast | back/src/dora/dora-metrics.ts:112-117 | what "last" means: a request mentioning the ticket was carried there and no later one mentioning it was carried |
| Blame.IncidentsByDeployment | back/src/dora/dora-metrics.ts:107-135 | each deployment's bucket holds the incidents it is charged with, once each, in order; `Blame.ChargedIffTicketDecides` says which |
| Blame.ChargedIffTicketDecides | back/src/dora/dora-metrics.ts:119-133 | an incident is charged to a deployment if and only if one of its tickets was last shipped by it, no later than the incident opened, and each ticket before that by nothing or only after the incident |
| Blame.BlamedIff | back/src/dora/dora-metrics.ts:119-133 | an incident is counted against a deployment if and only if one of its tickets was last shipped no later than it opened |
| Blame.LaterWorkHidesTheCause | back/src/dora/dora-metrics.ts:112-117 | for deployments and requests that do correlate so, a request shipping the same ticket after the incident leaves the earlier, explaining deployment unblamed, which would be blamed without it |
| Blame.InBucketIff | back/src/dora/dora-metrics.ts:120-132 | an incident is in a bucket exactly when that deployment is its culprit, and at most once |
| Blame.BlameIsCausalAndUnique | back/src/dora/dora-metrics.ts:94-135 | a blamed deployment is not after the incident and was the first to carry a request sharing a ticket with it, a success of the same repository and component after the merge; no other deployment is blamed for the incident |
| Attribution.CulpritsAreSuccesses | back/src/dora/dora-metrics.ts:107-135 | every culprit is a success among the given deployments, hence in the known set |
| Attribution.AttributedIff | back/src/dora/dora-metrics.ts:156-157 | attributed are exactly the given incidents that have a culprit |
| FailureRate.IncidentsConserved | back/src/dora/dora-metrics.ts:155-168 | whatever incidents are weighed by, those of all slices and those of the orphan slices add up to the incidents given |
| FailureRate.EachIncidentOnce | back/src/dora/dora-metrics.ts:141-146 | as multisets, slices and orphans hold each incident once |
| FailureRate.OrphansAreUndeployed | back/src/dora/dora-metrics.ts:187-198 | the incidents of the reported dimensions are exactly the untraced ones whose slice has no known deployment |
| FailureRate.SliceFailures | back/src/dora/dora-metrics.ts:160-183 | a slice's value times its size is its failed deployments plus its incidents, and no slice is empty; `RateReadings.RateReads` says which those are |
| RateReadings.RateReads | back/src/dora/dora-metrics.ts:148-184 | of one reading: its size is the successes and failures of its dimensions, its value times that the failures where they count, plus the incidents traced to those deployments and the untraced ones of its dimensions where those count |
| RateReadings.RatedDimensions | back/src/dora/dora-metrics.ts:158-160 | the readings are of the distinct dimensions of some success or failure, once each |
| RateReadings.OrphansAreNamed | back/src/dora/dora-metrics.ts:187-198 | the dimensions warned about are, without duplicates, those of an untraced incident to which no success or failure belongs |
| FailureRate.FailuresConserved | back/src/dora/dora-metrics.ts:148-184 | the failures over all slices are the failed deployments where they count, plus all incidents but the orphans where those count |
| FailureRate.SizesConserved | back/src/dora/dora-metrics.ts:155-175 | the slice sizes add up to the known deployments |
| FailureRate.FoldedRateIsPooled | back/src/dora/aggregate.ts:26-65 | folding every slice gives total failures over total known deployments, however dimensions cut them, and nothing only when nothing known was deployed |
| Restore.RecoveriesIn | back/src/dora/dora-metrics.ts:242-254 | the nested loops yield the sample of each position in turn |
| Restore.FailureEndsAtNearestSuccess | back/src/dora/dora-metrics.ts:241-247 | exactly a failure with a later success in the sorted order yields a sample, one, non-negative, ended by the nearest such success |
| Restore.PipelineRecoveries | back/src/dora/dora-metrics.ts:240-255 | the samples of a slice are those of each repository and environment taken alone |
| Restore.RecoveriesAreLocal | back/src/dora/dora-metrics.ts:235-240 | for any set of deployables, the samples of the whole are those of the set and of the rest, each computed alone |
| RestoreReadings.RecoveredIff | back/src/dora/dora-metrics.ts:235-254 | a slice pairs a failure with a success exactly where that is the first success of its dimensions, repository and environment to follow it, by date and then as read |
| RestoreReadings.RestoreReads | back/src/dora/dora-metrics.ts:226-266 | of one reading: its population is the seconds of those pairs and of the resolved incidents its slice reads, once each, its size their number and its value their median |
| RestoreReadings.RestoredDimensions | back/src/dora/dora-metrics.ts:226-266 | a slice is read, once, exactly where such a pair or incident exists |
| Restore.MttrIncidents | back/src/dora/dora-metrics.ts:219-232 | the slices together read every incident, less the traced ones where only incidents count |
| Restore.RestoreReadsEveryIncidentIff | back/src/dora/dora-metrics.ts:216-232 | every incident is read if and only if deployments are read too or none was traced |
| Restore.TracedIncidentIsNotRead | back/src/dora/dora-metrics.ts:219-232 | a deployment, a request it carried and an incident sharing its ticket, for which incidents as the source give no reading at all |
| Restore.FoldedMttr | back/src/dora/dora-metrics.ts:212-267 | for each of the three sources, the fold is the median over every recovery and every resolved incident the source reads, over as many samples |
| DeployTimes.DeployTimeOf | back/src/dora/dora-metrics.ts:556-581 | one reading per dimensions of the landing deployments, over all the landings that carry them |
| DeliveryReadings.DeployTimeReads | back/src/dora/dora-metrics.ts:556-581 | of one reading: its population is the seconds from merge to deployment of every landing on a deployment of its dimensions, once each, its size their number and its value their median |
| DeliveryReadings.DeployTimeDimensions | back/src/dora/dora-metrics.ts:556-581 | time to deploy is read, once, of exactly the dimensions of a deployment something landed with |
| DeployTimes.LandingTimesAreReal | back/src/dora/dora-metrics.ts:566-567 | every landing measured is a first landing, and its time is never clamped |
| DeployTimes.FoldedDeployTime | back/src/dora/aggregate.ts:51-65 | the fold is the median of every landing's time, in whatever order they were read |
| Folding.FoldByMetric | back/src/dora/aggregate.ts:68-79 | one fold per metric in order of first appearance, each over all readings of that metric |
| Folding.FoldOfSlices | back/src/dora/aggregate.ts:26-65 | duration slices fold into the median of everything measured and the sum of the sizes, however the samples were cut or ordered |
| Folding.GroupingKeepsValues | back/src/dora/dora-metrics.ts:673-686 | grouped by dimensions and put back together, the same values come out |
| Folding.SlicesKeepEverything | back/src/dora/dora-metrics.ts:596-613 | empty slices yield no reading, and the others carry every sample |
| Folding.SlicesReadEach | back/src/dora/dora-metrics.ts:596-613 | one reading for each slice with samples and none for the others: all of them its population, their median its value |
| Folding.FoldedMean | back/src/dora/aggregate.ts:56-91 | a rate, or a duration without samples, folds into the mean weighed by sizes, or the plain mean where no size is known |
| Frequency.FoldedFrequency | back/src/dora/dora-metrics.ts:75-91 | the frequencies of all slices add up to the successes over the days, and there is none without a span or a success |
| RateReadings.FrequencyReads | back/src/dora/dora-metrics.ts:75-91 | of one reading: its size is the successes of its dimensions, its value their number per day |
| RateReadings.FrequentDimensions | back/src/dora/dora-metrics.ts:79-82 | the readings are of the distinct dimensions of the successes, once each, and of none without a span |
| LeadTime.Measure | back/src/dora/dora-metrics.ts:525-534 | one walk fills the four segments, each from the requests that state its dates |
| LeadTime.LeadTimeBreakdown | back/src/dora/dora-metrics.ts:519-543 | up to four readings per dimensions, each over the segments of that group |
| DeliveryReadings.LeadTimeReads | back/src/dora/dora-metrics.ts:519-543 | of one reading: its population is the seconds between the two dates of its segment, of every request of its dimensions that states them, its size their number and its value their median |
| DeliveryReadings.LeadTimeDimensions | back/src/dora/dora-metrics.ts:519-543 | a segment is read, once, of exactly the dimensions of a request that states its dates |
| LeadTime.SegmentsAddUpIff | back/src/dora/dora-metrics.ts:507-513 | coding, pickup and review never fall short of the lead time, and add up to it if and only if the dates follow one another, or run backwards throughout |
| LeadTime.FoldedLeadTime | back/src/dora/aggregate.ts:51-65 | each segment folds into the median over every request of the window that states its dates |
| DoraService.Compute | back/src/dora/dora.service.ts:388-434 | the one list of readings, the orphans and the mismatches are all those of one correlation of the given events, and the mismatches are exact |
| DoraService.ComputeOver | back/src/dora/dora.service.ts:365-435 | the same over the events of the period alone |
| DoraService.EventsOfPeriod | back/src/dora/dora.service.ts:379-381 | a period holds the events on either of its bounds and all in between |
| DoraService.PartsOfResults | back/src/dora/dora.service.ts:425-434 | taken out of the list by metric, each part comes back whole, and nothing else with it |
| DoraService.OverallReadings | back/src/dora/aggregate.ts:67-79 | each metric of the list folds into its reading over the whole window, whatever the dimensions: successes over days, failures over known deployments, medians of every restore, segment and landing |
| DoraService.OverallOfPeriod | back/src/dora/dora.service.ts:379-434 | the same over the events of a period: of incidents, only the orphans it names are missing |
| Tables.BatchByRow | back/src/ingest/store.service.ts:81-90 | with one reading per id, a batch is its merge applied to each row, and no guarded write is lost |
| Tables.BatchByWinner | back/src/ingest/store.service.ts:81-90 | whatever ids it repeats, a batch leaves in each row one merge of the row held before: of the last reading the guard lets through |
| Tables.MergedWinnerIsLastOfLatest | back/src/ingest/store.service.ts:109-114 | for the merged feed that reading is the last of those dated latest |
| Columns.OpenRowSays | back/src/ingest/merge.ts:98-128 | every column of a row after the open listing, from the row held and the last reading dated latest; marked as seen alone where all are older, untouched where none is listed |
| Columns.MergedRowSays | back/src/ingest/merge.ts:145-181 | every column of a row after the merged listing, what the feed does not report kept |
| Columns.PipelineRowSays | back/src/ingest/merge.ts:183-205 | every column of a pipeline after its listing: the held status stands only where it is further on than the one read |
| Columns.DeploymentRowSays | back/src/ingest/merge.ts:212-230 | the same of a deployment, the last listed reading deciding |
| Tables.WrittenCountsAdditions | back/src/ingest/store.service.ts:84-100 | with one reading per id, the count is of the readings that had something to add |
| Tables.ReposByName | back/src/ingest/store.service.ts:64-73 | every listed repository is stored and seen and no other touched; a branch stated is the last one stated, and a known one is kept where none is |
| Tables.OpenByRow | back/src/ingest/store.service.ts:76-101 | a row after the open listing: merged with its reading, or only marked as seen where the reading is stale |
| Tables.MergedByRow | back/src/ingest/store.service.ts:103-116 | a row after the merged listing: merged with its reading, untouched without one |
| Store.StoreService.UpsertRepos | back/src/ingest/store.service.ts:59-74 | the table after the listing, branches stated or not, and one count per repository |
| Store.StoreService.WritePullRequest | back/src/ingest/store.service.ts:301-314 | a row is replaced unless the stored one is newer, created if there is none, and counted accordingly |
| Store.StoreService.UpsertPullRequests | back/src/ingest/store.service.ts:76-101 | the table after the batch, stale readings marked as seen, and the rows written; `Columns.OpenRowSays` says what each row then holds |
| Store.StoreService.UpsertMergedPullRequests | back/src/ingest/store.service.ts:103-116 | the table after the batch and the rows written; `Columns.MergedRowSays` says what each row then holds |
| Store.StoreService.WritePipeline | back/src/ingest/store.service.ts:316-323 | a row is replaced unless the stored one is newer, created if there is none |
| Store.StoreService.UpsertPipelines | back/src/ingest/store.service.ts:118-127 | the table after the batch and the rows written; `Columns.PipelineRowSays` says what each row then holds |
| Store.StoreService.WriteDeployment | back/src/ingest/store.service.ts:330-339 | a row is always written |
| Store.StoreService.UpsertDeployments | back/src/ingest/store.service.ts:129-137 | the table after the batch and the rows written; `Columns.DeploymentRowSays` says what each row then holds |
| Store.StoreService.CloseStalePullRequests | back/src/ingest/store.service.ts:264-270 | exactly the rows on the board not seen since are closed and marked, every other is as it was; no row on the board is left unseen since; the count is of the rows that changed |
| Store.StoreService.PruneOutOfScope | back/src/ingest/store.service.ts:279-289 | row by row, what is of a repository out of a non-empty scope is dropped and everything else is as it was, in all four tables; the count is of the rows gone |
| History.NothingEstablishedIsLost | back/src/ingest/merge.ts:74-236 | over any calls in any order, ids repeated or not: rows stay, merge, commit and review dates stay known, a merged request never returns to the board, status ranks never drop, known durations and addresses stay, `updatedAt` never decreases |
| History.CallKeeps | back/src/ingest/merge.ts:98-236 | the same of one call, which also leaves no row open with a merge date if there was none |
| History.MergedBatchKnows | back/src/ingest/store.service.ts:103-116 | commit and review dates known after a merged batch: those the row had and those its winner states |
| History.PipelineBatchKnows | back/src/ingest/store.service.ts:118-127 | the same of a pipeline batch and the duration |
| History.DeploymentBatchKnows | back/src/ingest/store.service.ts:129-137 | the same of a deployment batch and its addresses, the winner being the last listed |
| History.StatedDateIsBlankIff | back/src/ingest/store.service.ts:103-116 | a commit or review date a reading states is blank afterwards if and only if the row had none and the last reading dated latest of its id does not state it; with ids listed once that is the reading itself |
| History.StaysByRepo | back/src/sources/connectors/github.connector.ts:131 | a store filled by calls whose ids name their repository holds every id under the repository it names |
| History.RepeatedReadingBlanks | back/src/ingest/store.service.ts:109-114 | a batch of two readings of one id where a stated date is blank afterwards |
| Reconciliation.SweepReconciles | back/src/ingest/store.service.ts:90-99 | the sweep closes no listed row, stale readings included, and leaves no other on the board that was last seen before the run |
| Reconciliation.OnlyReportedOnBoard | back/src/ingest/sync.service.ts:146-155 | where everything stored was last seen before the run, only reported requests are on the board after it |
| Columns.ListedMergeIsRecorded | back/src/ingest/sync.service.ts:168-174 | a merge the listing reports ends the run recorded, whatever the open listing and the sweep made of the row |
| Columns.ListedOpenStands | back/src/ingest/sync.service.ts:168-174 | a request reported open, and no merge of it, ends the run as the open listing left it |
| Columns.RunLands | back/src/ingest/sync.service.ts:109-133 | of any id: without the repository list nothing moves; with it, a row ends the run as its listings leave it, untouched where they were refused, every listed repository stored and seen, and what is out of scope dropped by a full run alone |
| Reconciliation.ReplayIsIdentity | back/src/ingest/sync.service.ts:109-133 | replaying the same answers with the same `startedAt` changes no table, for ids that name their repository |
| Rows.IdsNameOneRepo | back/src/sources/connectors/gitlab.connector.ts:167 | an id built from the platform, a repository and a number belongs to one repository |
| Reconciliation.PullRequestRunTwice | back/src/ingest/sync.service.ts:167-175 | one row through the listings and the pruning twice is as after once, exactly unless it is displaced from the scope under a stale reading |
| Reconciliation.ReplayIsIdentityIff | back/src/ingest/sync.service.ts:109-133 | replaying the same answers with the same `startedAt` changes no table if and only if no row is so displaced |
| Reconciliation.ReplayOfStableIds | back/src/ingest/sync.service.ts:109-133 | and so never, where no listed id is stored under another repository |
| Reconciliation.RenamedRowIsDisplaced | back/src/ingest/store.service.ts:279-289 | with an id that names no repository, as no connector builds, a stale reading under a new repository makes the second run differ from the first |
| Schedule.ClockUntouched | back/src/ingest/sync.service.ts:94-107 | a skipped or partial run leaves the reconciliation clock alone, and a failed listing moves none of its dates |
| Schedule.ListingsMark | back/src/ingest/sync.service.ts:109-133 | what a run makes of each listing: current where it was answered, its error alone where it failed, untouched where it was not made |
| Schedule.FullAndSkippedIff | back/src/ingest/sync-cadence.ts:49-52 | a run reconciles if and only if it is forced or some listing is six hours overdue, and is skipped if and only if it does not and an event came within fifteen minutes |
| Schedule.WithoutEventsEveryRunLists | back/src/ingest/sync-cadence.ts:49-52 | a source never heard of is never skipped: each run that is answered makes its listing |
| Schedule.FailedListingIsReRead | back/src/ingest/sync.service.ts:212-219 | after a failed listing the next delta starts where the failed one did, or at the start of the window where that has moved past it |
| Schedule.DueIffIntervalElapsed | back/src/ingest/sync-cadence.ts:108-113 | with all listings reconciled at one instant, a run is due exactly once the interval has elapsed |
| Schedule.ClockStands | back/src/ingest/sync.service.ts:77-107 | until a full run comes, whatever events arrive and whatever listings fail, the clock stands and less than the interval has elapsed |
| Schedule.FullRunsAreNeverLate | back/src/ingest/sync-cadence.ts:40-52 | two consecutive full runs are less than the interval and one period apart; the next run reconciles exactly when forced or due |
| Schedule.FullRunCovers | back/src/ingest/sync-cadence.ts:54-72 | a full run that lists the requests covers its window from any state |
| Schedule.RunCovers | back/src/ingest/sync.service.ts:246-258 | an unskipped run keeps every instant from the window's start to the cursor asked for, whether or not its listings answer |
| Schedule.CoverageHolds | back/src/ingest/sync.service.ts:166-175 | the same over any sequence of unskipped runs after a full one |
| Schedule.RunJoinsIff | back/src/ingest/sync-cadence.ts:63-72 | with the window asked for up to some instant, a run keeps it so up to its own listing if and only if it lists nothing, is full, or starts, overlap included, no later than the next instant or the window itself |
| Schedule.CoverageIsUnbrokenIff | back/src/ingest/sync.service.ts:94-107 | over any runs, skipped and failed ones included, nothing of the window is ever left unasked below the last listing if and only if every listing joins the ones before it |
| Schedule.SkipsAreCoveredIff | back/src/ingest/sync-cadence.ts:54-72 | after any skips and failures in a row, the next delta answered covers the window if and only if the last skip began no more than the overlap past what had been asked, or past the start of the window |
| Schedule.SkipLeavesHole | back/src/ingest/sync.service.ts:94-107 | from a source never run, a full run, a skipped one and a delta after which an instant of the window was asked of nobody |
| Sync.SyncService.DueForFullSync | back/src/ingest/sync.service.ts:283-292 | due without any state, or as soon as one listing is overdue |
| Sync.SyncService.Step | back/src/ingest/sync.service.ts:220-244 | a success sets this listing's cursor and date, clears its error, and moves its clock in a full run only; a failure records its message and nothing else; no other listing moves |
| Sync.SyncService.SyncPullRequests | back/src/ingest/sync.service.ts:156-176 | the open listing, the sweep and the merged listing land in that order, up to the one that fails, under one cursor, and what landed is counted |
| Sync.SyncService.SyncPipelines | back/src/ingest/sync.service.ts:178-193 | the pipeline listing lands and is counted, or fails alone |
| Sync.SyncService.SyncDeployments | back/src/ingest/sync.service.ts:195-210 | the deployment listing lands and is counted, or fails alone |
| Sync.SyncService.List | back/src/ingest/sync.service.ts:112-133 | without a repository list nothing else is touched; otherwise each listing lands or fails on its own, a full run prunes, and the counts are reported |
| Sync.SyncService.SyncOnce | back/src/ingest/sync.service.ts:77-144 | one run: whether it reconciles or is skipped, in terms of the request and the clocks; what a skipped one marks; where the merged listing starts; its store, cursors and outcome |
| Sync.FailuresAreNamed | back/src/ingest/sync.service.ts:237-243 | a run names every listing that failed, the repository list alone where that did, in the order they are asked, and no other |
| Sync.PrunedAreStrays | back/src/ingest/sync.service.ts:129-133 | what a run reports as pruned is nothing unless it is full and names some repository, and else the number of rows, over the four tables, of no repository listed |
| Sync.CountsOfPulls | back/src/ingest/sync.service.ts:168-170 | what a run counts as open requests written and rows closed, each under its own name |
| Sync.CountsOfTheRest | back/src/ingest/sync.service.ts:172-208 | what a run counts as merges, pipelines and deployments, each under its own name |
| Sync.OpenAdditions | back/src/ingest/sync.service.ts:169 | with ids listed once, the count of open requests is of the readings that were not stale |
| Sync.PipelineAdditions | back/src/ingest/sync.service.ts:190 | with ids listed once, the count of pipelines is of the readings that were not stale |
| Sync.MergedAdditions | back/src/ingest/sync.service.ts:173 | with ids listed once, every merged reading is written and counted |
| Interleaving.EveryInterleavingIsShaped | back/src/ingest/merge.ts:232-236 | under every interleaving of both feeds, sweeps and prunings, no row is on the board with a merge date |
| Interleaving.StepNeverGoesBack | back/src/ingest/store.service.ts:291-350 | no step of any writer lowers the `updatedAt` of a row that stays |
| Interleaving.UpdatedAtNeverDecreases | back/src/ingest/store.service.ts:301-314 | over every interleaving, a live pull request's `updatedAt` never decreases |
| Interleaving.PipelineUpdatedAtNeverDecreases | back/src/ingest/store.service.ts:316-323 | over every interleaving, a live pipeline's `updatedAt` never decreases |
| Interleaving.MergeDateIsLostIff | back/src/ingest/merge.ts:106-108 | a step loses a recorded merge if and only if it writes an open reading merged into a row loaded before the merge, dated no earlier than the row |
| Interleaving.MergeDateCanBeLost | back/src/ingest/store.service.ts:76-116 | a schedule of an open and a merged reading of any unmerged row, dated in that order, in which the recorded merge is lost |
| Interleaving.LeadTimeDatesAreLostIff | back/src/ingest/merge.ts:123-124 | a step loses a commit or review date if and only if its writer overwrites the row and neither loaded nor read the date |
| Interleaving.LeadTimeDatesCanBeLost | back/src/ingest/merge.ts:170-177 | two merged readings of one row loaded in turn, the degraded one landing last, after which both dates are gone |
| Interleaving.PipelineIsSetBackIff | back/src/ingest/merge.ts:183-205 | a step lowers a pipeline status rank, or loses its duration, if and only if its writer overwrites the row and neither loaded nor read as much |
| Interleaving.PipelineCanBeSetBack | back/src/ingest/store.service.ts:316-323 | two readings of one pipeline loaded in turn, the less settled landing last, after which status and duration are taken back |
| Interleaving.UndisturbedWriteIsAtomic | back/src/ingest/store.service.ts:76-101 | loaded and written with the row untouched in between, an open reading lands as the sequential call would have it |
| Interleaving.UndisturbedMergeIsAtomic | back/src/ingest/store.service.ts:103-116 | the same of a merged reading |
| Interleaving.UndisturbedPipelineIsAtomic | back/src/ingest/store.service.ts:118-127 | the same of a pipeline |
| Interleaving.UndisturbedDeploymentIsAtomic | back/src/ingest/store.service.ts:129-137 | the same of a deployment |
| Interleaving.StatusGoesBackIff | back/src/ingest/store.service.ts:325-339 | a step lowers a deployment's status rank if and only if neither its reading nor the row it loaded is as far on as what is stored |
| Interleaving.StatusCanGoBack | back/src/ingest/store.service.ts:325-339 | two readings of one deployment loaded in turn; the one further on lands, and the other takes its status back |
| Endangered.MergeIsKeptIff | back/src/ingest/store.service.ts:291-314 | a recorded merge outlives every schedule its row lives through if and only if no writer under way would erase it |
| Endangered.DateIsKeptIff | back/src/ingest/store.service.ts:291-314 | the same of commit and review dates |
| Endangered.PipelineFactIsKeptIff | back/src/ingest/store.service.ts:316-323 | the same of how far a pipeline has settled, and of its duration |
| Endangered.DeploymentRankIsKeptIff | back/src/ingest/store.service.ts:325-339 | the same of how far a deployment has settled |
| SignIns.ChainIsLongestUnbrokenSuffix | back/src/auth/login-throttle.ts:27-31 | a chain is the longest run of last failures less than the window apart |
| SignIns.BucketsAreChains | back/src/auth/login-throttle.ts:41-80 | after any calls on a clock that never goes back, each bucket is its key's chain since the last clear; a missing one had nothing live |
| SignIns.TimesSinceCleared | back/src/auth/login-throttle.ts:55-68 | the failures counted are the key's own since it was last cleared, in order |
| SignIns.RetryIsLongestLeft | back/src/auth/login-throttle.ts:45-53 | the wait is the longer of what is left of fifteen minutes after the last failure, for an address after ten failures that close together, for a caller after thirty |
| SignIns.AnswersFromHistory | back/src/auth/login-throttle.ts:45-53 | the wait is the longest left over the keys whose live chain reached its limit |
| SignIns.SweepsAreUnobservable | back/src/auth/login-throttle.ts:70-79 | sweeping at any moments changes no later answer |
| Throttle.LoginThrottle.RetryAfter | back/src/auth/login-throttle.ts:45-53 | the longer of the two keys' waits |
| Throttle.LoginThrottle.RecordFailure | back/src/auth/login-throttle.ts:55-63 | both keys hold one failure more, or a first one, for fifteen minutes from now; of the others only expired ones may go |
| Throttle.LoginThrottle.Clear | back/src/auth/login-throttle.ts:66-68 | both keys' buckets are gone, no other |
| Throttle.LoginThrottle.Prune | back/src/auth/login-throttle.ts:74-79 | below five thousand buckets nothing goes, from there exactly the expired ones |
| QuotaPressure.RemainingShare | back/src/api-quota/quota-pressure.ts:68-77 | the least share over the buckets with a ceiling and a running window, and nothing only without any |
| QuotaPressure.ReadingIsHighest | back/src/api-quota/api-quota.service.ts:113-128 | observed counts of one bucket and reset date, in any order and among anything else, leave the answer that counts highest |
| QuotaPressure.LatestWindowIsHeldIff | back/src/api-quota/api-quota.service.ts:117-127 | over answers of several windows in any order, what is held in the end is of the latest if and only if no answer of an earlier one, coming after the last of the latest, reaches the count held by then |
| QuotaPressure.LateAnswerDisplaces | back/src/api-quota/api-quota.service.ts:117-127 | two answers after which the reading of a window gone by is held |
| QuotaPressure.MeasuredSettles | back/src/api-quota/api-quota.service.ts:108-113 | once a subject is measured, no declared count of it moves until it is forgotten |
| QuotaPressure.DeclaredCountsItsWindow | back/src/api-quota/quota-pressure.ts:43-56 | before any measure, the declared reading has the ceiling and window declared, and counts the calls since its window opened, on a call, with no call past its end |
| ApiQuota.ApiQuotaService.CountAgainstBudget | back/src/api-quota/api-quota.service.ts:237-247 | a call of an unmeasured subject with a budget is one more on its running window or the first of a new one; any other changes nothing |
| ApiQuota.ApiQuotaService.Record | back/src/api-quota/api-quota.service.ts:102-128 | an answer is held unless an observed reading of a window no earlier already counts more, and settles that the subject is measured; without an answer the call is counted |
| ApiQuota.ApiQuotaService.Forget | back/src/api-quota/api-quota.service.ts:136-149 | every reading and mark of the subject is gone, those of others stay |
| ApiQuota.ApiQuotaService.Share | back/src/api-quota/api-quota.service.ts:155-162 | the least share over the subject's own running buckets |
| ApiQuota.ApiQuotaService.AllowsOptional | back/src/api-quota/api-quota.service.ts:169-171 | optional work is allowed exactly when the reserve is not positive or every running bucket with a ceiling leaves more than that many hundredths of it |
| Squashes.ExpandSquashes | back/src/release-notes/release-notes.service.ts:315-348 | the output is the expansion of the range, also where it returns early |
| Squashes.RunIsEntryOrItsWork | back/src/release-notes/release-notes.service.ts:328-347 | each entry stands in its place, or is a squash replaced by a non-empty run of its own commits, none of them of the range |
| Squashes.RunIsExactly | back/src/release-notes/release-notes.service.ts:328-347 | an entry without new work stands as written; otherwise all of it stands in, each commit once in its request's order: its request's commits that neither the range nor the output before it holds |
| Squashes.RunsFollowOneAnother | back/src/release-notes/release-notes.service.ts:327-348 | the output is what stands for each entry, one after the other |
| Squashes.OutputIsDistinct | back/src/release-notes/release-notes.service.ts:332-334 | given distinct shas in the range and in each request, no sha is output twice |
| Squashes.FetchedWorkIsKept | back/src/release-notes/release-notes.service.ts:293-296 | every commit fetched for a squash is in the output or was in the range |
| Environments.AgreedAttributes | back/src/dashboard/environments.ts:129-142 | exactly the keys some deployment states and none contradicts, with that value |
| Environments.DeployedRow | back/src/dashboard/environments.ts:57-74 | agreed attributes, memberships and repositories as sorted lists without repeats, the count, the last read of the latest deployments, and the tail of the dated order |
| Environments.DescribedTail | back/src/dashboard/environments.ts:60-72 | the tail is the statuses of the last eleven deployments, or all, by date and then as read |
| Environments.EndOfOrderIsLatest | back/src/dashboard/environments.ts:60-61 | the end of the dated order is the last read of the deployments made last |
| Names.ListIsUnique | back/src/dashboard/environments.ts:148-150 | a set of names has one sorted list, whatever order it was gathered in |
| Names.BeforeIffDiffers | back/src/dashboard/environments.ts:148-150 | one name comes before another exactly where it stops short of it or first differs by a lower character |
| Environments.DeclaredRows | back/src/dashboard/environments.ts:86-105 | one row per undeployed name in order of first declaration, with the attributes and repository of its last declaration and nothing of deployments |
| Environments.FoldEnvironments | back/src/dashboard/environments.ts:44-76 | one described row per deployed name, newest first, then the declared ones, which have no date |
| Environments.CountsAddUp | back/src/dashboard/environments.ts:48-53 | the row counts add up to the deployments |
| Environments.FoldIgnoresOrder | back/src/dashboard/environments.ts:44-150 | for permuted deployments the fold has the same names, each with equal attributes, memberships, repositories, count and last date |
| Environments.DeclaredNamesAreUndeployed | back/src/dashboard/environments.ts:78-92 | a declared row is of a name nothing was deployed to, and no name has two rows |

## Left out

- The database, queues, HTTP and logging: a table is a map by external id within one source, and a guarded update is one atomic step.
- Connectors and providers: a listing is an arbitrary answer or a refusal; that it is complete and lists each id once is stated where a lemma needs it.
- A failure of the store itself, such as an error other than a lost creation, is not part of this model.
- Floating-point rounding, `NaN` and the parsing of ISO dates: numbers are exact and dates are milliseconds.
- Joined string keys: a separator inside a repository, environment, tracker or subject name could make two pairs collide, in `forget` and `share` by a shared prefix; pairs cannot. Keys that JavaScript objects inherit are not modelled either.
- The lists of samples shown beside a reading and their cap of fifty.
- Carriers.SuccessTimeline: pushes into nested maps are a function of the old map, because sharing those lists is not observable; each timed deployment's parsed date is its own date, and the closing sort passes are one expression.
- Names are compared character by character, where JavaScript compares UTF-16 units: the two orders differ only between characters beyond the basic plane and some within it.
- Environments.FoldEnvironments: the declared rows are appended to the sorted deployed ones; that this is the order of the source's comparison is part of the contract.
- `depthDays` and `listingSince`: a default and a subtraction; pipelines and deployments are read whole by their answer, whatever the bound.
- The persistence of quota readings and their reload at start-up: `flush` awaits inside its loop, and its timing is not part of this model.
- ApiQuota.ApiQuotaService.Forget: one step, as the source does it in memory before it first awaits; the removal of stored rows after that, and a reload of the budgets while it is pending, are not part of this model.
- Whether a commit's message names a request is given with the commit; the expressions that read messages are not part of this model.
- The front end, cryptography, sessions, access rules, and the remaining folds and selections of the back end, which add simpler members only.
