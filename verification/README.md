# Airfare price index: a verification model

The repository collects economy fares for a fixed set of Indian domestic routes and booking windows,
turns them into one canonical fare per flight, aggregates those into route-window medians, freezes a
seven-date base per basket item, and publishes a renormalised fixed-weight index with weekly and
monthly aggregates. This project models that chain in Dafny and proves what it keeps: across restarts,
in any order of dates, under failing adapters and concurrent calls.

`dafny verify dfyconfig.toml` checks everything.

## How it is built

Each imperative component of the system is a class whose methods change state step by step; each
method is proved equal to a pure function of the old state, and the theorems are about those functions.
What each function computes is said a second time without it, of the rows, answers and numbers it is
given: which fares a price is the median of, which offers a canonical fare comes from, which rows an
outlier pass flags, how an adapter's answers end a job.

- `IndexModel` says what each stage of the index calculation does to the database; `IndexSession` is
  the session that does it, commit by commit. `IndexBase` holds the write-once base, `IndexView` the
  materialised periods, `IndexInvariant` and `IndexRuns` the theorems over every sequence of operations.
  `RouteWindowPrices` and `StoredPrices` say what a price is, of one run and of every reachable state,
  `StoredComponents` and `DayStatus` what a stored daily row quotes and when it is published, `BaseRule`
  what a base is, `CallConditions` when a call is accepted. `IndexRecovery`, `StoredRelatives`, `IndexCrash` and `NaturalRisk` are crash
  recovery, `StalePeriods` and `BaseDates` what a kill leaves out of date and what moves a base period.
  `Methodology`, `Periods`, `Thresholds` and `Calendar` are the calculation, the period metrics, their
  two coverage thresholds and the calendar.
- `Worker` and `WorkerSession` are the collection worker with its transactions, `JobOutcomes` how its
  jobs end; `Collection`, `CollectionService` and `RunOutcomes` the run life cycle; `Planner` and `PlanService` the job plan; `CuratedRuns` a run
  from its plan to its end; `RateLimiter` the rate limiter with its clock; `CrawlDelay` the crawl-delay
  lock as interleaved steps of concurrent calls.
- `Normalize`, `Outliers`, `Canonical`, `CanonicalRun` and `CanonicalService` are the eligibility gate,
  outlier flagging and canonicalisation; `CanonicalFareRule` and `KeptObservations` say what that
  publishes and what it leaves of the table, `Scores` follows the quality scores through them,
  `Pipeline` joins them to the index and `IndexedFares` says what the index reads of them.
- `Correlation`, `Backtest` and `RouteComparisons` are the historical comparison; `StoredRoutes` takes
  the route comparison to the rows that index runs store.
- `Aggregates`, `Medians`, `Sorting`, `Rounding`, `Observations`, `Domain` and `Options` are shared.

A database table is a sequence or a map keyed by its unique constraint. A stored amount is a whole
number of its column's last digit (paise, 1e-8 index points, 1e-4 percent); arithmetic in memory is on
exact reals; `quantize` rounds half to even and a stored column rounds half away from zero, both
written out. The adapter, the clock and SHA-256 are parameters: an adapter may answer anything, sleep
lasts at least as long as asked, and digests are injective only where a theorem says so.

## What the proofs found

The code is modelled as it stands. Where it does less than its documentation or its names promise:

- Interrupting an index calculation is not always harmless, although repeating the command for a run is
  documented as idempotent. Sessions do not expire rows on commit (backend/app/db/session.py:17) while
  the price column keeps two decimals (backend/app/models/index.py:103), so an uninterrupted call
  computes the index from an exact half-paisa median and a call resumed after the price commit from the
  rounded one. `IndexCrash.CrashRecovery` gives the exact condition on the state before the call, for
  every reachable state and every commit; `IndexCrash.RecoveryFails` shows that every state meeting it
  fails, down to a stored price relative, `NaturalRisk.NaturalRiskIsReached` that such states come about in
  the ordinary course, and `IndexCrash.RepeatedKills` extends the condition to any number of kills.
- With a minimum coverage of zero and no priced item, an index is PUBLISHED without a value
  (`Methodology.PublishedWithoutValue`).
- The coverage threshold of a calculation is a parameter, that of a period is not. A calculation under a
  lower threshold makes the warning LOW_COVERAGE_DAYS_EXCLUDED untrue, exactly when its coverage lies
  between the two (`Thresholds.WarningUntrue`). No caller in the repository passes another threshold
  than the default (backend/app/cli.py:44, backend/app/api/v1/index.py:161,
  scripts/run_30_day_backtest.py:77), under which it cannot happen (`Thresholds.SafeThreshold`,
  `Thresholds.EngineRowsHonest`).
- Base prices are written once, base dates are not: an accepted seeding under another date moves them,
  and nothing else does (`BaseDates.SeedingAgain`, `BaseDates.StepMovesDates`).
- The digest of an imported dataset covers its code, so the check for identical content under another
  code never fires (`Backtest.OnlyTheCodeMatters`, `Backtest.SameContentTwice`).
- A total of less than half a paisa passes the gate and is stored as zero
  (`Normalize.IncludedFarePositive`), and a positive index below 5e-9 is stored as zero
  (`Pipeline.StoredIndexPositive`); canonical fares are positive unless some included total is below
  half a paisa (`Pipeline.PipelineFares`).

A penalty is taken from `quality_score or 100`, which would raise a score of zero to at least 80
(backend/app/services/canonical.py:42 and 50, `Scores.PenaltyTakesItsPoints`). That branch is dead on
the pipeline's own path, resumed runs that flag outliers a second time included: no penalty meets a
score below 90 (`Scores.PenaltiesMeetNinety`).

## Model

| member | source | states |
|---|---|---|
| IndexCrash.CrashRecovery | backend/app/indexing/service.py:31-119 | in every reachable state and for every commit a call can be killed after: calling again ends in the state of an uninterrupted call if and only if the kill does not come after the first two commits of a call at risk, that is one that is going to index an unpriced date on which some item has a half-paisa median and has its base, or gets it from this price as the seventh; the risk is read off the state before the call |
| IndexCrash.RepeatedKills | backend/app/indexing/service.py:31-119 | the same for any number of kills one after the other: only the first call that committed anything matters |
| IndexRecovery.LaterCallsFindTheRow | backend/app/indexing/service.py:46-58 | once a call has indexed its run, the next call returns the very same row with `created=False` and changes nothing at all |
| IndexRuns.RowIsFinal | backend/app/indexing/service.py:46-58 | in every reachable state: once a call has indexed its run, every later call returns the very same row with `created=False`, whatever sequence of operations comes in between |
| IndexRecovery.HalfPaisaIsNotWhole | backend/app/indexing/aggregate.py:85-92 | two fares of 1 and 2 paise: the session holds 1.5, the column keeps 2 |
| IndexCrash.RecoveryFails | backend/app/indexing/service.py:44-87 | every state at risk fails: killed after its prices or after its freeze, the call that follows ends in a different state, and the difference shows in the stored ten-decimal price relative of each item with a half-paisa median and a base, for bases up to five billion rupees |
| IndexCrash.RiskIsReached | backend/app/indexing/service.py:31-119 | states at risk are reached from an empty database by any finished run of one method version with a half-paisa median on an item: collect it, kill its calculation after it made the basket, seed the basket |
| NaturalRisk.NaturalRiskIsReached | backend/app/indexing/service.py:31-119 | and in the ordinary course: after seven scheduled days collected and indexed (six, if the next day may itself enter the base), by any finished run of one method version on a new date with a half-paisa median on the item |
| StoredRelatives.HalfPaisaShows | backend/app/models/index.py:189-189 | half a paisa of a price shows in the ten-decimal relative for every base up to five billion rupees |
| StoredRelatives.FractionalIsHalf | backend/app/indexing/aggregate.py:21-28 | a median of stored fares that is not a whole number of paise lies half-way between two |
| IndexRecovery.DailyFromMemory | backend/app/indexing/service.py:67-98 | the row computed from prices in memory equals the one computed from stored prices exactly when every price that entered it was whole paise; errors are the same either way |
| IndexRuns.ViewAgreement | backend/app/indexing/periods.py:158-239 | after any sequence of collections, calculations in any date order (each possibly killed after any commit), seedings and refreshes, every stored period that is not stale equals its recomputation from the daily rows, and every daily row has its week and month stored unless they are stale; a kill makes stale only what it came before refreshing |
| StalePeriods.KilledIsOutOfDate | backend/app/indexing/service.py:88-118 | conversely every period that a kill makes stale is out of date in the state it leaves: missing, or different from its recomputation, while a day of it is stored |
| StalePeriods.StaleIsOutOfDate | backend/app/indexing/periods.py:158-239 | after any sequence of operations from an empty database the stale periods are exactly the periods of stored days that are missing or differ from their recomputation |
| IndexRuns.NothingStale | backend/app/indexing/service.py:57-118 | without an interrupted calculation no period is ever stale |
| IndexRuns.CompletionCures | backend/app/indexing/service.py:31-119 | completing a calculation that was killed any number of times makes its week and month agree again |
| IndexView.InputsAreTheDays | backend/app/indexing/periods.py:165-177 | the input links of a period are exactly the stored days within its bounds, in strictly ascending order and at most one per calendar day |
| IndexView.NewDayStales | backend/app/indexing/service.py:88-118 | a new daily row leaves every period but its own week and month in agreement |
| IndexView.RefreshCures | backend/app/indexing/periods.py:158-226 | refreshing a period that contains a stored day makes it current and disturbs no other period |
| IndexView.SourcesAre | backend/app/indexing/periods.py:141-155 | the sources counted for a period are exactly those that some canonical fare of a run behind one of its days used |
| IndexView.RefreshedCounts | backend/app/indexing/periods.py:158-184 | a refreshed period expects seven days or the days of its month, observes the stored days within its bounds and counts the sources used on them |
| Calendar.PeriodsPartition | backend/app/indexing/periods.py:47-52 | weeks and months partition the calendar, leap months included: a date lies within the bounds of another exactly when both have the same bounds |
| Calendar.OrdinalInjective | backend/app/indexing/periods.py:47-52 | different valid dates have different ordinals |
| Calendar.OrdinalCounts | backend/app/indexing/periods.py:47-52 | ordinals count the days: 1 January of year 1 is day 1 and each next date is one more, at ends of months and leap years alike |
| Calendar.BoundsAre | backend/app/indexing/periods.py:47-52 | a week runs from a Monday to the Sunday after it, and a month holds exactly the dates of its year and month, as many as the calendar gives it |
| IndexRuns.RunKeepsInv | backend/app/indexing/service.py:31-119 | the database invariant holds after every run, and every finished run, price, base and daily row is kept unchanged |
| IndexRuns.CallKeepsInv | backend/app/indexing/service.py:31-119 | every single commit of a calculation keeps the invariant, with nothing new stale before the daily row, both its periods right after it, the month alone after the weekly refresh and neither at the end |
| IndexRuns.CommitsExtend | backend/app/indexing/service.py:31-119 | no commit of a calculation alters or drops a base, a price, a daily row or its components |
| IndexRuns.CallSucceeds | backend/app/indexing/service.py:37-87 | in every reachable state a call succeeds if and only if its run is finished, a basket exists or can be made, its fares share one version and no other run has priced its date; an incomplete aggregation, an empty basket or a bad weight is never met |
| CallConditions.AcceptedExactly | backend/app/indexing/service.py:37-87 | the same condition said of the rows: the run is COMPLETED or PARTIAL, its class has a basket or the three frozen routes are active, any two of its fares have the same version, and no stored price of its class and date belongs to another run |
| CallConditions.BasketCovers | backend/app/indexing/basket.py:16-72 | a new basket pairs each of the three routes with each of the five windows exactly once, at equal weights that add up to one to within the twelfth decimal, without bases |
| IndexRuns.NeverProvisionalAgain | backend/app/indexing/methodology.py:91-99 | once every item of a class has its base, no later calculation of that class, after any operations, is provisional |
| IndexRuns.StoredLabels | backend/app/indexing/periods.py:84-125 | for every stored current period: inputs within bounds, warnings empty iff COMPLETE with two sources, and HIGH only when every calendar day was published with 80% coverage and the average is at least 95% |
| IndexRuns.IndexIsPositive | backend/app/indexing/price_relative.py:6-11 | in every reachable state each item with a price and a base gets a price relative (its guards cannot raise) and an index value is strictly positive |
| IndexRuns.CallIsPositive | backend/app/indexing/service.py:67-79 | the same for the inputs a call actually computes from, exact prices in memory included |
| IndexInvariant.BasketKeepsInv | backend/app/indexing/basket.py:32-72 | creating the basket keeps the database invariant and the view |
| IndexInvariant.PricesKeepInv | backend/app/indexing/aggregate.py:47-111 | aggregation keeps it: a day is priced by one run, all items at once, with positive prices |
| IndexInvariant.FreezeKeepsInv | backend/app/indexing/basket.py:84-137 | freezing keeps it: bases are positive and backed by seven component dates |
| IndexInvariant.DailyKeepsInv | backend/app/indexing/service.py:60-116 | adding the daily row keeps it, with the two periods of the day marked stale |
| IndexInvariant.RefreshKeepsInv | backend/app/indexing/periods.py:185-226 | refreshing keeps it and removes the period from the stale ones |
| IndexBase.EarliestSeven | backend/app/indexing/basket.py:94-111 | the rows a base is computed from are seven eligible ones (scheduled runs only for LIVE) on seven distinct dates, and every other eligible row is dated later |
| IndexBase.NaturalBase | backend/app/indexing/basket.py:112-116 | an item that a freeze gives a base gets the median of its seven earliest eligible stored prices, with their dates |
| BaseRule.BaseExactly | backend/app/indexing/basket.py:91-116 | a freeze gives an item a base exactly when at least seven of its stored prices may enter (of its class, not missing, from scheduled runs when the class is LIVE), and then the median of the seven dated before all the others, whose dates it keeps |
| IndexBase.WholeMedian | backend/app/indexing/basket.py:115-115 | the median of seven stored prices is itself a whole number of paise |
| IndexBase.FrozenForgets | backend/app/indexing/basket.py:91-137 | freezing from exact prices in memory and from rounded stored prices gives the same bases |
| IndexBase.FrozenTwice | backend/app/indexing/basket.py:91-93 | a second freeze changes nothing |
| IndexBase.BaseDatesSpan | backend/app/indexing/basket.py:118-135 | the base period of a completed basket runs from the earliest to the latest date any of its bases was computed from |
| IndexBase.SeedingCompletes | backend/app/indexing/basket.py:150-163 | an accepted seeding completes the basket with positive bases, equal to the given prices when those are whole paise |
| BaseDates.SeedingAgain | backend/app/indexing/basket.py:150-166 | after an accepted seeding another one is accepted exactly with the stored bases as its prices, changes nothing but the base dates, and leaves those alone exactly when its date is the same |
| BaseDates.StepMovesDates | backend/app/indexing/basket.py:118-135 | in every reachable state the base dates of a basket that has them are moved by exactly one operation, an accepted seeding under another date: no freeze, calculation (killed or not), collection or refresh does |
| IndexSession.Session.CalculateIndexForRun | backend/app/indexing/service.py:31-119 | the imperative call commits exactly the states, and returns or raises exactly the outcome, that the recovery and run theorems speak about |
| IndexSession.Session.AggregateRouteWindowPrices | backend/app/indexing/aggregate.py:31-111 | adds one price per item and commits once, each the median of the economy rupee fares of the item's route and window with their number beside it, or finds this run's rows, or raises for missing items, a partial day or another run's date |
| RouteWindowPrices.PriceIsMedian | backend/app/indexing/aggregate.py:21-92 | the price of an item is the median of the run's fares whose route, window, cabin ECONOMY and currency INR are the item's: none exactly when there is no such fare, as many flights as there are such fares, and at least half of them on either side |
| RouteWindowPrices.OtherFareIgnored | backend/app/indexing/aggregate.py:71-84 | a fare that differs in any of the four columns changes neither the price nor the count, wherever it stands among the fares |
| StoredPrices.StoredPricesAreMedians | backend/app/indexing/aggregate.py:70-110 | after any operations from an empty database, kills included, every stored price is the median, rounded as its column rounds, of the economy rupee fares of its own finished run on the route and window of its basket item |
| StoredComponents.ComponentsQuoteStored | backend/app/indexing/service.py:60-116 | after any operations from an empty database every component of every stored daily index quotes the stored price of its item on that day by the same run, missing when that is missing, at its basket weight, and a base it quotes is the one its item still has |
| DayStatus.StoredStatusByCount | backend/app/indexing/methodology.py:91-99 | after any operations from an empty database every stored daily index is provisional exactly while some component lacks its base, otherwise PUBLISHED exactly with twelve or more of its fifteen items priced, has a value exactly with its bases and one of them priced, and its coverage is their share to the nearest unit |
| DayStatus.StoredVersion | backend/app/indexing/service.py:77-98 | every stored daily index carries its run's date and names the one version of its canonical fares, or that there were none |
| IndexSession.Session.FreezeBasePeriodIfReady | backend/app/indexing/basket.py:75-137 | sets each missing base from the seven earliest prices, never takes the minimum of no dates, always commits, and returns completeness |
| IndexSession.Session.FreezeItems | backend/app/indexing/basket.py:91-116 | the item loop, in place, equals the freeze of every item |
| IndexSession.Session.SetSeededBasePrices | backend/app/indexing/basket.py:140-167 | accepts exactly the price lists that cover the basket, are positive and change no base, and changes nothing otherwise |
| IndexSession.Session.EnsureMvpBasket | backend/app/indexing/basket.py:32-72 | creates the fifteen-item basket once, unless a frozen route is inactive |
| IndexSession.Session.RefreshPeriod | backend/app/indexing/periods.py:158-226 | stores the recomputed period with its links and commits |
| IndexSession.Session.ComputeDailyIndex | backend/app/indexing/service.py:60-98 | the daily row, or the reason it cannot be computed, in the order the source checks |
| Methodology.Calculate | backend/app/indexing/methodology.py:26-105 | fails exactly for a threshold outside [0, 100], an empty basket or a weight that is not positive, never in the coverage guard or a price relative |
| Methodology.Components | backend/app/indexing/methodology.py:51-90 | the loop stores one component per item and sums the contributions of the available ones |
| Methodology.OrderIndependent | backend/app/indexing/methodology.py:32-32 | with one input per id the order in which the basket is read is irrelevant |
| Methodology.ValueIsWeightedMean | backend/app/indexing/methodology.py:72-90 | the value equals the sum of weight times relative over the sum of weights, and effective weights add up to one |
| Methodology.ValueBetweenRelatives | backend/app/indexing/methodology.py:72-90 | the value lies between the least and the greatest relative |
| Methodology.ValueIsPositive | backend/app/indexing/methodology.py:90-90 | there is a value exactly when some item is available, and it is positive |
| Methodology.Homogeneous | backend/app/indexing/methodology.py:72-90 | scaling all current prices by k scales the value by k and leaves coverage alone |
| Methodology.EqualWeightCoverage | backend/app/indexing/weights.py:14-17 | with equal weights coverage is at least c exactly when 100 times the number available is at least c times the number of items |
| Methodology.PublishedWithoutValue | backend/app/indexing/methodology.py:91-99 | a published index lacks a value in exactly one case: a zero threshold and nothing available |
| Periods.CalculatePeriodMetrics | backend/app/indexing/periods.py:55-138 | fails exactly when no day is expected; otherwise returns the metrics the label theorems speak about |
| Periods.CollectWarnings | backend/app/indexing/periods.py:84-94 | the appended list equals the warnings as a function of the rows |
| Periods.CompleteMeansEveryDayPublished | backend/app/indexing/periods.py:109-115 | for engine rows COMPLETE holds exactly when every expected day was published |
| Periods.NoWarningsMeansComplete | backend/app/indexing/periods.py:84-94 | warnings are empty exactly when the period is COMPLETE with at least two sources |
| Periods.HighMeansTrustworthy | backend/app/indexing/periods.py:109-115 | HIGH implies every day published with at least 80% coverage, an average of at least 95% and two sources |
| Periods.PeriodValueBetween | backend/app/indexing/periods.py:96-102 | a period value lies between the least and greatest published value and exists exactly when a day was published |
| Periods.CoverageSummaries | backend/app/indexing/periods.py:70-77 | the minimum coverage is that of some day and below no other, and the average lies between it and the greatest |
| Periods.CountsAreCounts | backend/app/indexing/periods.py:78-83 | the observed, valued and low-coverage counts are the numbers of such days |
| Periods.LabelsExactly | backend/app/indexing/periods.py:96-125 | each status and each confidence level is given exactly under its condition on the numbers of published and low-coverage days, the average coverage and the number of sources |
| Periods.WarningsExactly | backend/app/indexing/periods.py:84-94 | each warning is given exactly under its condition on the days, and none twice |
| Periods.PublishedInPlace | backend/app/indexing/periods.py:96-102 | the averaged values are those of the published days, each in its place |
| Periods.RoundedMeanNear | backend/app/indexing/periods.py:73-77 | the rounded mean is the nearest unit to the sum over the count |
| Periods.AverageCoverageIs | backend/app/indexing/periods.py:70-77 | the average coverage is the nearest unit to the mean of the coverages of all stored days |
| Thresholds.LowYetPublished | backend/app/indexing/methodology.py:90-99 | a day is published with a value and yet of low coverage if and only if its basket is complete, some item is available and its coverage reaches the threshold of the calculation but is below 79.99995% |
| Thresholds.SafeThreshold | backend/app/indexing/service.py:35-35 | a threshold never does that exactly when it is at least 79.99995%, as the default of 80 is |
| Thresholds.WarningUntrue | backend/app/indexing/periods.py:78-102 | a period warns that low-coverage days are excluded while its mean covers more values than those of the other days exactly when some day was calculated between the two thresholds |
| Thresholds.EqualWeightsBetween | backend/app/indexing/weights.py:14-17 | for a basket of equal weights the band between the two thresholds is a range of numbers of available items |
| Thresholds.EngineRowsHonest | backend/app/indexing/periods.py:78-102 | rows the engine writes are averaged exactly as the warning says |
| Worker.RetryBudget | backend/app/services/worker.py:86-107 | over any number of executions of a job, each possibly killed, the adapter is called at most max_retries + 1 times and every durable state is sound evidence |
| Worker.ExecuteEnds | backend/app/services/worker.py:97-124 | an execution that returns leaves the job SUCCEEDED or FAILED: the loop cannot fall through |
| Worker.CrashKeeps | backend/app/services/worker.py:126-217 | after any crash each stored raw quote has exactly one observation, no job holds one hash twice, nothing stored was lost and the budget is respected |
| Worker.StoreQuotesKeepEvidence | backend/app/services/worker.py:154-187 | storing any response keeps one observation per raw quote and one raw quote per hash |
| Worker.ExecuteBackoff | backend/app/services/worker.py:108-124 | backoff delays never shrink, never exceed the cap and never follow the last attempt |
| Worker.RetriedExactlyWhenTransient | backend/app/services/worker.py:103-107 | another attempt is made exactly after a failure with SOURCE_UNAVAILABLE, RATE_LIMITED, NETWORK_TIMEOUT or UNKNOWN_ERROR while at most max_retries attempts have been made |
| Worker.ExecutePaid | backend/app/services/worker.py:97-100 | at every crash point each attempt made has already been counted durably |
| JobOutcomes.ExecuteOutcome | backend/app/services/worker.py:76-217 | how every execution ends, from the adapter's answers alone: without route or source INVALID_RESPONSE and without attempts left UNKNOWN_ERROR, unasked; otherwise every answer but the last failed in passing and the last decides: the job SUCCEEDED exactly when that was a list of quotes that can all be kept, holding every one of them (NO_RESULTS and nothing stored for an empty list), and else FAILED with the code of that answer, a passing one only with no attempt left |
| JobOutcomes.AttemptReported | backend/app/services/worker.py:126-217 | what one attempt reports and leaves for each answer: a timeout, an adapter error, a bad value, an unexpected error, an empty list, quotes that can all be kept, and the first quote that cannot |
| JobOutcomes.AskedAgain | backend/app/services/worker.py:100-107 | the adapter is asked again exactly after an answer that failed with one of the four passing codes while attempts are left |
| JobOutcomes.ExecuteAsks | backend/app/services/worker.py:97-124 | an execution asks the adapter exactly as often as the durable attempt count grows |
| JobOutcomes.StoreAll | backend/app/services/worker.py:154-217 | a response of acceptable quotes is stored whole: each quote under the job with one observation, included exactly when normalising said so, and nothing else |
| JobOutcomes.StoreStops | backend/app/services/worker.py:154-204 | any other response is left at its first unacceptable quote, keeping what came before it only when that quote was stored as rejected |
| JobOutcomes.ExecuteWaits | backend/app/services/worker.py:108-124 | an execution sleeps exactly once between any two attempts, the delay of the earlier one, and not at all when the backoff or its cap is zero |
| JobOutcomes.DelayDoubles | backend/app/services/worker.py:108-118 | the first delay is the backoff, each further one twice the one before, none above the cap |
| WorkerSession.Session.ExecuteJob | backend/app/services/worker.py:76-124 | the imperative worker produces exactly the events the theorems speak about and ends the job as the adapter's answers say |
| WorkerSession.Session.AttemptJob | backend/app/services/worker.py:126-217 | one attempt reports and leaves what its answer says: success, rejected normalisation, adapter failure or rollback |
| WorkerSession.Session.StoreResponse | backend/app/services/worker.py:154-187 | the quote loop commits a rejection, rolls back an exception and leaves a full response pending |
| WorkerSession.Session.PersistRawQuote | backend/app/services/worker.py:231-274 | reuses the row with the same hash in the job, and raises for a payload that is no object |
| RateLimiter.MinuteBound | backend/app/services/worker.py:48-57 | any half-open sixty-second window holds at most r grants to a source |
| RateLimiter.SpacedApart | backend/app/services/worker.py:48-57 | grants i and j to a source are at least (j - i) intervals apart |
| RateLimiter.SourceRateLimiter.Wait | backend/app/services/worker.py:48-57 | a grant never comes before the source's next allowed time, no other source is affected, and the sleep asked for is no longer than until the last grant is 60 / r seconds old |
| Planner.PlanJobs | backend/app/services/planner.py:88-117 | the three loops plan the whole matrix |
| Planner.PlanRoute | backend/app/services/planner.py:88-115 | the two inner loops plan every window and source of a route |
| Planner.MatrixIsComplete | backend/app/services/planner.py:88-115 | exactly one job per route, booking window and source |
| Planner.MatrixSize | backend/app/services/planner.py:80-80 | `planned_jobs` is the number of jobs planned |
| Planner.WindowsBearTheirDays | backend/app/domain/booking_window.py:7-18 | each of the five lead times has the window that bears its number, and no other lead time has one |
| Planner.KeyInjective | backend/app/services/planner.py:93-102 | equal idempotency keys name the same run, source, route and window, whatever characters a source code contains |
| Planner.PlannedKeysDistinct | backend/app/services/planner.py:93-113 | no two planned jobs of a run share a key |
| PlanService.KeysUnique | backend/app/services/planner.py:93-113 | no two jobs in the whole table of runs share an idempotency key, so its unique constraint never fails |
| PlanService.PlansKept | backend/app/services/planner.py:47-55 | over any sequence of plans a run once planned is kept as it stands, and every run has as many jobs as it says, none of them twice |
| PlanService.FirstRequestCovered | backend/app/services/planner.py:80-115 | after any sequence of plans each run has exactly one job for every route, booking window and source of the first request for its class, trigger and date |
| PlanService.RunTable.PlanCollectionRun | backend/app/services/planner.py:36-118 | creates a run only when none exists for its class, trigger and date |
| Collection.ResumeConserves | backend/app/services/collection.py:127-181 | after any interruptions, the call that returns leaves every planned job SUCCEEDED or FAILED, the counters equal to the numbers of such jobs and of included observations, successful + failed = planned, and a matching status |
| CuratedRuns.PlannedRunConserves | backend/app/services/collection.py:106-181 | from the plan to the end: for the first request of a class, trigger and date, any adapter, any kills and the actual curation, the call that returns has successful + failed = routes times windows times sources, one observation per raw quote and a matching status |
| CuratedRuns.CurationOnlyExcludes | backend/app/services/collection.py:151-152 | outlier flagging and canonicalisation never include an observation again, and exclude nothing more once a run has canonical fares |
| Collection.CallInv | backend/app/services/collection.py:134-181 | every state a call commits keeps the evidence and budget invariants |
| Collection.OverIsFinal | backend/app/services/collection.py:127-132 | a run that is over is never executed again: a call commits nothing and returns it as it stands |
| RunOutcomes.RunOutcome | backend/app/services/collection.py:127-150 | a call of a run that is not over ends every PLANNED or RUNNING job as the adapter's answers to that job alone say, whatever the other jobs meet, and leaves every other job as it was |
| CuratedRuns.RunIsCurated | backend/app/services/collection.py:151-181 | the observations such a call leaves are those of its jobs, flagged and canonicalised: which are included and how many canonical fares there are is what the outlier, kept-observation and canonical-fare rules say; a run that has fares keeps them |
| CollectionService.RunSession.RunSources | backend/app/services/collection.py:127-181 | the imperative call commits and returns exactly what the theorems speak about |
| CollectionService.RunSession.Finish | backend/app/services/collection.py:153-181 | the final counters and status are those of the jobs |
| Normalize.NormalizeRawQuote | backend/app/pipeline/normalize.py:81-162 | the flags, each exactly for its own reason, inclusion, status, a score of 100 less 20 per flag but not below zero, and the stored total of a quote |
| Normalize.GateIsExact | backend/app/pipeline/normalize.py:81-159 | a quote is included if and only if it is on the collected itinerary, on offer as a non-stop economy fare in rupees from an approved source, and its amounts are positive and consistent |
| Normalize.FlagsAreFor | backend/app/pipeline/normalize.py:81-159 | each of the sixteen flags is given exactly under its own condition on the quote, and no other flag ever |
| Normalize.IncludedFarePositive | backend/app/pipeline/normalize.py:111-112 | an included quote has a positive total, stored as at least one paisa exactly when it is at least half a paisa |
| Normalize.FlagsDistinct | backend/app/pipeline/normalize.py:158-162 | no flag is appended twice |
| Outliers.BreakdownBound | backend/app/pipeline/outliers.py:46-58 | at least half of any group of fares is never flagged, for zero and for positive MAD |
| Outliers.GroupBreakdownBound | backend/app/pipeline/outliers.py:46-69 | in every group of a table without flags at least half of the participating fares come out of a pass without the flag |
| Outliers.DecisionsAreScaleFree | backend/app/pipeline/outliers.py:19-58 | no decision changes when all fares are scaled and shifted |
| Outliers.SecondPassIsIdle | backend/app/pipeline/outliers.py:53-67 | a second pass over the same included rows flags nothing, and no pass changes inclusion |
| Outliers.PassFlagsOutlying | backend/app/pipeline/outliers.py:27-69 | a pass flags exactly the participating rows of groups of at least five whose fare lies more than 35000/6745 times d away from m, or anywhere else than m when d is zero, where m is the median of the group and d the median of the distances from it; no other row changes, none of a smaller group |
| Outliers.ObservationTable.FlagStatisticalOutliers | backend/app/pipeline/outliers.py:27-69 | the in-place pass flags exactly the outlying rows that were not flagged, costs each five points, leaves every other row alone and returns their number |
| Outliers.ObservationTable.FlagMembers | backend/app/pipeline/outliers.py:53-67 | the inner loop marks exactly the unflagged members further from the centre than 35000/6745 spreads, or off it when there is no spread |
| Canonical.SplitPartitions | backend/app/services/canonical.py:122-142 | eligible, duplicate and rejected are together exactly the candidates, and eligible has one row per distinct approved (source, fare) |
| Canonical.PartsDisjoint | backend/app/services/canonical.py:122-142 | no candidate is in two of the three parts |
| Canonical.RepresentativesAre | backend/app/services/canonical.py:146-158 | the representatives are, in order of source, exactly the cheapest offers of the approved sources |
| Canonical.PublishedFromCheapest | backend/app/services/canonical.py:159-200 | the statistics depend on nothing but the least fare of each approved source |
| Canonical.OrderIndependent | backend/app/services/canonical.py:113-120 | they do not depend on the order in which quotes arrive |
| Canonical.ExtraQuoteIgnored | backend/app/services/canonical.py:126-142 | they do not change when a source repeats a quote or adds a dearer one, nor for any quote of an unapproved source |
| Canonical.StatisticsBetween | backend/app/services/canonical.py:177-197 | the rounded representative lies between the stored minimum and maximum, and there is a conflict exactly when those differ |
| Canonical.PublishedPositive | backend/app/services/canonical.py:176-195 | positive fares give a positive minimum and representative |
| Canonical.EveryCandidateLinked | backend/app/services/canonical.py:207-224 | each candidate is linked exactly once |
| Canonical.RolesAreRight | backend/app/services/canonical.py:206-215 | used links are exactly the selected representatives, rejected ones exactly those of unapproved sources, and direct use means direct sources only |
| Canonical.SomeLinkUsed | backend/app/services/canonical.py:143-215 | a group with an eligible candidate has at least one used link |
| Canonical.NothingEligible | backend/app/services/canonical.py:143-144 | a group yields no fare exactly when every candidate is of an unapproved source |
| CanonicalFareRule.CanonicalFaresAre | backend/app/services/canonical.py:69-204 | a run gets exactly one canonical fare for every flight some approved source quotes, and each publishes the median, half to even, of the cheapest offers of the direct sources under the direct policy when there are any and of all approved sources otherwise, with at least half of those on either side and one of them when their number is odd; least and greatest offer, spread, number of sources and conflict are those of the approved offers, and the links mark exactly the sources used |
| CanonicalFareRule.MedianFareIs | backend/app/services/canonical.py:53-58 | the median of listed fares by position, without sorting, rounded half to even |
| KeptObservations.TableIsCurated | backend/app/services/canonical.py:38-182 | of the rows of an approved source that quote the same fare for the same flight exactly one stays included, none of the others with a lesser hash; every row of an unapproved source is excluded; kept rows are flagged exactly when the offers disagree; every mark with its flag, status, reason and points |
| CanonicalRun.SecondRunIdle | backend/app/services/canonical.py:69-76 | canonicalising a run again changes nothing and reports the same count, also when it created none |
| CanonicalRun.FareLinks | backend/app/services/canonical.py:207-224 | the links of a fare are exactly the observations of its group |
| CanonicalRun.FaresPositive | backend/app/services/canonical.py:184-204 | every canonical fare of a run with positive fares is positive |
| CanonicalService.Canonicaliser.CanonicalizeRun | backend/app/services/canonical.py:61-227 | the imperative pass leaves exactly the table, fares and count the theorems speak about, publishes for every flight the median of its chosen offers, keeps one observation per offer, and refuses an unknown policy |
| CanonicalService.Canonicaliser.Classify | backend/app/services/canonical.py:126-142 | the classification loop splits the sorted group and marks exactly the rejected and duplicate observations |
| CanonicalService.Canonicaliser.FlagConflicts | backend/app/services/canonical.py:180-182 | flags exactly the eligible observations |
| CanonicalService.Canonicaliser.GroupRows | backend/app/services/canonical.py:88-110 | the dictionary holds exactly the groups, in order of first appearance |
| CanonicalService.ChooseRepresentatives | backend/app/services/canonical.py:146-158 | grouping by source and taking each minimum gives the representatives |
| CanonicalService.FareMedian | backend/app/services/canonical.py:53-58 | the two branches compute the median of the listed fares, ties of paise to even |
| Correlation.CauchySchwarz | backend/app/services/historical.py:191-204 | for series of any equal length covariance squared is at most the product of the variances |
| Correlation.CoefficientBounded | backend/app/services/historical.py:200-204 | a calculated coefficient lies in [-1, 1] and stays there after rounding to six decimals |
| Correlation.StatusCases | backend/app/services/historical.py:192-201 | a coefficient is missing exactly for fewer than three points or a constant series |
| Correlation.CoefficientIs | backend/app/services/historical.py:191-204 | a calculated coefficient, in millionths, is the nearest to a million times the covariance over the square root of the product of the variances, so it has the sign of the covariance or is zero |
| Correlation.CovariationIs | backend/app/services/historical.py:195-200 | n times the covariance is n times the sum of products less the product of the sums |
| Correlation.AffineReverses | backend/app/services/historical.py:191-204 | turning a series upside down, whatever the scale and offset, changes the sign of the coefficient and nothing else |
| Correlation.PerfectOpposite | backend/app/services/historical.py:202-204 | a series against an upside-down copy of itself has coefficient exactly minus one |
| Correlation.AffineInvariant | backend/app/services/historical.py:191-204 | of the correlation as a function of its two series: scaling one by a positive constant and shifting it changes nothing |
| Correlation.Symmetric | backend/app/services/historical.py:202-204 | the outcome is the same with the two series exchanged |
| Correlation.PerfectFit | backend/app/services/historical.py:202-204 | a series against a scaled copy of itself has coefficient exactly one |
| Backtest.BuildBacktest | backend/app/services/historical.py:288-355 | one point per overlapping month, each deviation that of its two sides, the coefficient the covariance over the root to the nearest millionth, both means of those points, the route comparisons of each overlapping month, each warning exactly under its condition, and a failure exactly when both bases are non-zero and a later reference is zero |
| Backtest.MeansWithin | backend/app/services/historical.py:340-355 | the mean absolute deviation and the average coverage are missing exactly without points and lie within the bounds of their columns |
| Backtest.UnitsDoNotMatter | backend/app/services/historical.py:303-355 | scaling all index values by one non-zero number and all references by another changes no rebased value, deviation or mean and not the series the correlation is taken of, every rounding included |
| Backtest.CollectPoints | backend/app/services/historical.py:308-331 | the point loop succeeds exactly when every reference can be divided by |
| Backtest.PointDeviates | backend/app/services/historical.py:308-331 | both sides of a month are percentages of their base months, its deviation is the first less the second and its percentage that over the second, each to the nearest unit |
| Backtest.FirstMonthIs100 | backend/app/services/historical.py:303-326 | the first common month is 100 on both sides with no deviation |
| Backtest.ProportionalAgrees | backend/app/services/historical.py:311-337 | against a reference proportional to the index every deviation is zero and the coefficient, if any, exactly one, rounding included |
| Backtest.ContentNeverChanges | backend/app/services/historical.py:149-157 | what was imported under a code never changes over any later imports |
| Backtest.ReimportFindsIt | backend/app/services/historical.py:149-157 | importing an accepted payload again, however much later, creates nothing and finds it |
| Backtest.OnlyTheCodeMatters | backend/app/services/historical.py:144-162 | with a collision-free digest an import is refused exactly when its code holds other content; the refusal of equal content under another code never happens |
| Backtest.DatasetStore.ImportHistoricalDataset | backend/app/services/historical.py:144-188 | the store changes exactly as specified and stays consistent |
| RouteComparisons.DayDecomposes | backend/app/services/historical.py:229-243 | on every day with a priced item the overall index of its stored ten-decimal components is the weight-averaged mean of the per-route indices |
| RouteComparisons.MonthDecomposes | backend/app/services/historical.py:244-245 | over a month of fully priced days the mean index is the same weighting of the routes' monthly indices |
| RouteComparisons.PeriodDecomposes | backend/app/services/historical.py:244-257 | a period index that is the rounded mean of daily values close to their components differs from that weighting by at most 1.005e-8 |
| RouteComparisons.ReportedDecomposes | backend/app/services/historical.py:244-257 | and from the weighting of the route indices as reported, rounded to eight decimals, by at most 1.505e-8 |
| RouteComparisons.ListDecomposes | backend/app/services/historical.py:244-264 | the list as it is returned, its reported indices weighted by its own routes, gives the period index back within 1.505e-8 |
| RouteComparisons.CompareRoutes | backend/app/services/historical.py:244-264 | one comparison for exactly the routes that were priced at all, in order of origin and destination, with its index, deviation, day count and coverage |
| RouteComparisons.ComparisonDeviates | backend/app/services/historical.py:244-264 | a comparison states the mean of the route's daily indices, what that exceeds the period index by, and the share of expected days, each to the nearest unit |
| RouteComparisons.CollectRoutes | backend/app/services/historical.py:229-243 | the dictionaries hold each route's daily indices in day order |
| RouteComparisons.ComparePeriods | backend/app/services/historical.py:217-264 | the outer loop returns the comparison of each period in order |
| StoredRoutes.RunCalculated | backend/app/indexing/service.py:88-116 | in every run every daily row keeps the components of the calculation that made it, over the fifteen items of its basket |
| StoredRoutes.StoredDayDecomposes | backend/app/services/historical.py:222-243 | every published daily row of a reachable state decomposes over the three routes, its stored value within 0.505e-8 of what its components give |
| StoredRoutes.StoredPeriodDecomposes | backend/app/services/historical.py:222-257 | every stored period that is not stale, has a value and full coverage on its published days equals the weighting of its route indices within 1.005e-8, of the reported ones within 1.505e-8 |
| StoredRoutes.StoredListDecomposes | backend/app/services/historical.py:222-264 | the comparison list returned for such a period gives its stored index back within 1.505e-8 |
| StoredRoutes.ReachablePeriodsDecompose | backend/app/services/historical.py:222-257 | so after any sequence of operations from an empty database |
| Methodology.FullCoverage | backend/app/indexing/weights.py:14-17 | coverage is 100 exactly when every item is available |
| CrawlDelay.CrawlDelayHonoured | backend/app/collectors/permissioned_web.py:62-87 | under every interleaving of concurrent calls, with failures and cancellations, no two renders overlap and each starts its crawl delay after every earlier render ended |
| CrawlDelay.HolderCanProceed | backend/app/collectors/permissioned_web.py:72-86 | no failure or cancellation leaks the lock |
| CrawlDelay.DelayIsNoLonger | backend/app/collectors/permissioned_web.py:62-87 | a waiting call's time is up exactly when its delay has passed since the last recorded end of a render, and a call that owes no waiting renders as soon as it has the lock |
| CrawlDelay.StepKeepsInv | backend/app/collectors/permissioned_web.py:72-86 | every step of every call keeps the protocol invariant |
| Pipeline.GatePositive | backend/app/pipeline/normalize.py:111-112 | every included observation has a positive fare, before and after outlier flagging, exactly when no quote passes the gate with less than half a paisa |
| Pipeline.PipelineFares | backend/app/services/canonical.py:184-204 | every canonical fare built from gated quotes is positive unless one of them is below half a paisa |
| Pipeline.PipelineVersion | backend/app/services/canonical.py:184-204 | all canonical fares of a run carry one method version, so the index engine never meets a mixed run |
| IndexedFares.PipelineFaresRead | backend/app/services/canonical.py:69-227 | the index engine reads of a processed run exactly one fare for every flight an approved source quoted, the median of its chosen offers after outlier flagging, with exactly the sources of those offers as the ones used |
| IndexedFares.QuotesAreObserved | backend/app/pipeline/normalize.py:81-180 | every quote has its observation: the flags it is given, included exactly without any, the total to the nearest paisa unless missing or negative |
| Pipeline.PipelineRunIsIndexed | backend/app/indexing/service.py:37-87 | a finished run of the pipeline is indexed exactly when its basket exists or can be made and no other run has priced its date, and its price relatives cannot raise |
| Pipeline.StoredIndexClose | backend/app/indexing/service.py:88-98 | a complete basket stores a value exactly when one was calculated, to the nearest 1e-8, halves away from zero |
| Scores.MarkedOnce | backend/app/services/canonical.py:113-182 | after canonicalisation each observation is marked with its own group and with no other |
| Scores.FirstCuration | backend/app/services/canonical.py:38-51 | in a first, uninterrupted curation each penalty meets a score of at least 95 |
| Scores.ScoresAddUp | backend/app/services/canonical.py:38-51 | however often a run is curated, resumed calls and changed configurations included: the score of every observation that passed the gate is 100 less 5, 20 and 10 for the flags it carries and at least 75, and every other observation is as it was stored |
| Scores.PenaltiesMeetNinety | backend/app/services/canonical.py:38-51 | in each of these curations an outlier penalty meets a score of at least 90 and the penalty of a duplicate or a conflict one of at least 95, so the default of 100 for a missing or zero score is never taken |
| Medians.MedianSplits | backend/app/indexing/aggregate.py:21-28 | at least half of the values lie on either side of the median |
| Medians.MedianIsMiddle | backend/app/indexing/aggregate.py:21-28 | the computed median is the mean of the two values at the middle positions, positions being counted without sorting |
| Medians.MedianUnique | backend/app/indexing/aggregate.py:21-28 | which no other number is |
| Medians.MedianPermutation | backend/app/indexing/aggregate.py:22-22 | a median does not depend on the order of its inputs |
| Medians.MedianOddMap | backend/app/indexing/aggregate.py:26-27 | a median of an odd number of values commutes with every monotone function, rounding included |
| Medians.MedianAffine | backend/app/pipeline/outliers.py:19-24 | any median commutes with a positive change of scale and offset |
| Rounding.HalfEven | backend/app/indexing/periods.py:73-75 | the nearest multiple, ties to even, as `quantize` rounds |
| Rounding.HalfAway | backend/app/models/index.py:103-103 | the nearest multiple, ties away from zero, as a PostgreSQL numeric column rounds |

## Left out

- The React frontend, FastAPI routers, Pydantic schemas, command line, logging, scheduler wiring, migrations, exports and source-health summaries: presentation and plumbing.
- Adapter internals (Duffel calls, page rendering, robots fetching, card and money parsing): an adapter is an arbitrary outcome of each call.
- SHA-256 and SQL mechanics: hashes are uninterpreted, queries are functions of the tables, flushes are immediate.
- The 28-digit context of `Decimal`: arithmetic in memory is exact, rounding happens where the code quantizes or a column stores; the correlation takes its square root as a given number whose square is the argument.
- IndexCrash.CrashRecovery: the states it compares hold component relatives, weights and contributions exact; `IndexCrash.RecoveryFails` proves that they also differ in a ten-decimal relative, for bases up to five billion rupees.
- Storage rounding of component columns other than the current price and the price relative, the link rows from canonical fares to route-window prices, timestamps and version strings other than the canonical method version.
- A session that spans several index calculations: the model gives each call a new session, and takes a base price back from its column once the freeze has ended, because no basket item is referenced any longer when it returns and the next query loads the items anew.
- Runs of the index at thresholds other than the default 80%: `Methodology.Calculate` and `Thresholds` cover every threshold, the theorems over runs the default.
- Activating or deactivating routes between operations, and baskets other than the frozen fifteen items: the active routes are arbitrary but fixed during a run.
- Concurrent callers of one rate limiter, and sharing across limiters: the worker calls it sequentially.
- Flagging outliers again after duplicates were removed on a resumed run: the included set has changed, so idempotence is claimed for an unchanged one; the scores of such runs are covered by `Scores.ScoresAddUp`.
- CuratedRuns.PlannedRunConserves: what curation reads of an observation besides its inclusion is an arbitrary function of its raw quote at each call.
- Weeks that end after the last representable date (year 9999): the calendar model has no upper limit.
- Alias dictionaries and text parsing in normalisation: `Normalize.Quote` holds their results.
- IndexView.InputsAreTheDays: periods of one data class are those of its one basket and the one methodology version; several basket versions are not modelled.
- RouteComparisons.CompareRoutes: within a day the rows are read in component order, and the components of a month come with the call.
- Correlation.AffineInvariant: exact arithmetic; the caller passes values already rounded to eight decimals, for which `Backtest.UnitsDoNotMatter` is the statement that includes the rounding.
- Backtest.RebasingKeepsCorrelation: exact arithmetic only, the code correlates the rebased values after rounding them to eight decimals.
- Pipeline.PipelineFares: not an equivalence; a fare stored as zero does no harm when the median of its group is still positive.
