# A verified model of the volatility index calculators

volatility-services turns a stream of option quotes into a 14-day volatility index (MFIV). This project models the parts of it that carry state and arithmetic, and proves what they keep over whole runs. All files are checked together: `dafny verify dfyconfig.toml`.

| file | models |
|---|---|
| `Instants.dfy`, `WeeklyExpiries.dfy` | instants in milliseconds, weekdays, Friday expiries; `mfivDates` and `rolloverWeekly` |
| `TimePeriods.dfy` | decimal numerals and `timePeriodToInteger` |
| `CivilDates.dfy`, `IsoTime.dfy` | calendar dates and ISO-8601 strings of instants |
| `ListedExpiries.dfy` | `buildExpiries`: the search for near and next expiries in a catalogue of instruments |
| `ReportClock.dfy`, `ReportLogs.dfy` | what both calculators' loops share: the five-second report clock and the verdicts of a pass; logs of messages and reports over a run |
| `VixV2.dfy`, `VixCalculatorV2.dfy` | the V2 calculator: its machine, and the class proved to run it |
| `VixV2Books.dfy`, `VixV2Listings.dfy`, `VixV2Failures.dfy` | when the V2 book is exact: for any catalogue, for one that is listed from the start, and two runs where it is not |
| `VixV2Logs.dfy`, `VixV2Runs.dfy` | which messages V2 consumes, when it rolls over and reports; the other theorems about V2 runs, and all of them together |
| `OptionNames.dfy`, `VixStrips.dfy`, `VixBooks.dfy` | option symbols, the strip of options and its sum, mid book, final book, forward price |
| `VixV1.dfy`, `VixCalculator.dfy` | the V1 calculator: its machine and its class |
| `VixV1Formulas.dfy`, `VixV1Logs.dfy` | the numbers V1 computes, each by its equation; which quotes V1 consumes, when it rolls over and what it publishes |
| `VixV1Runs.dfy`, `VixV1Pruning.dfy` | the theorems about V1 computations and runs, and the run that drops expired entries |
| `TimeBuckets.dfy`, `TimeSpans.dfy` | the option and trade bucket computables; their buckets among messages of other types |
| `IngestService.dfy`, `MarketData.dfy` | the ingest cache; messages, and the last message per symbol |

How the parts are modelled:

- Each calculator is a class whose methods update its fields as the source does, and each method is proved equal to a step of a functional machine (`VixV2`, `VixV1`). The theorems are about that machine.
- A stream is a function from a request to a finite sequence of messages; the instrument catalogue, the wall clock (is a reference date in the past), the index library `compute`, the exponential function and the year fraction of an expiry are parameters. `None` from `compute` means that it threw. Promises are sequential steps.
- Prices are `real`; instants are unbounded integers in milliseconds. ISO strings in `buildExpiries` are represented by their instants, which `IsoTime` justifies: on the strings `toISOString()` writes for the years 0000 to 9999, string order is time order.
- In V1, symbols are the four parts `split("-")` yields, with positive integer strikes; the text of a symbol is rebuilt where the code searches in it. `calculateIndex` is followed up to the variance under the square root.

Main results:

- **V2 book**: through any number of rollovers, the book is exact after each of them (it holds the last message per symbol of the whole run for the near and next expiries) if and only if each finds the condition `Harmless` on the expiries quoted so far; then the index library is handed the exact book at every report. This is `VixV2Books.RunIsExactIff`, for any catalogue and any feed whose messages carry the expiry listed for their symbol. On a catalogue listed from the start the condition is that at most one listed expiry crosses the 14-day target between two rollovers, or that the skipped ones were never quoted (`VixV2Listings.ListedRunIsExactIff`); `Spaced` is a property of the catalogue that guarantees it.
- **The V2 book can go wrong**: `VixV2Failures` follows two replays of two days, one on a crowded catalogue and one with an instrument listed late, to an end where a stale quote is left on a book that should be empty.
- **V2 runs** end, with at most one rollover per listed expiry of the replay period and one `onComplete`. A stream rolls over exactly at its first near or next message whose tick reaches the rollover before the end of the period, and such a message makes a report if and only if its tick is at least the report frequency after the last report of its stream (`VixV2Logs.RunIsLogged`, `ReportIsMadeIff`); every published index has the numbers the library estimated for that message.
- **Three calendars**: the weekday branches of `mfivDates` and `rolloverWeekly` and the catalogue search of `buildExpiries` agree with one floor division. The branches of `nextExpiration` are right at every instant exactly for periods of whole weeks (`WholeWeeksAreRight`), and the search agrees exactly under the condition of `CatalogueAgreesIff`.
- **V1 computations** satisfy their equations: put-call parity for the forward price of a closest pair, the variance as twice the grown contribution less the squared relative distance of forward price and strike, and the blend as linear interpolation at 14 days (`VixV1Runs.CalculationIsRight`). One succeeds exactly when both expiries have a strip of options (`CalculateSucceedsIff`).
- **V1 runs** make one such computation per quote, on the last mid of every symbol (`RunIsSound`), roll over and publish exactly when due, always the last computed variance (`VixV1Logs.RunIsLogged`). Entries of expired options, which V1 never removes, do not matter: a run that drops them at every rollover computes and publishes the same (`VixV1Pruning.PrunedRunIsSame`). The reason is that the substring test that selects entries is exact on Fridays (`FridayFilterIsExact`), although not on other days (`IncludesIff`, `FilterConfusesOtherDays`).
- **Buckets** are the closed spans of a unique cut of the stream, for messages of any type in any order; in a stream of own messages these are the groups of equal running maximum of the bucket number. Their timestamps increase under an exact condition (`RunStampsIncreaseIff`), which a message of another type can break (`RepeatedStamp`).

Where code and documentation differ, the code is modelled. The comments of `buildExpiries` describe the expiry list as containing near and next; the code returns only what follows next. `_hasNewBucket` is asked a second time after an update "for volume and tick based buckets"; for time buckets that check never fires, which `BucketComputable.Compute` proves.

## Model

| member | source | states |
|---|---|---|
| Instants.FridayAfterIsUnique | src/lib/expiries.ts:20-31 | the floor-division closed form is the only Friday 08:00 UTC in the week after an instant |
| WeeklyExpiries.RolloverIsClosedForm | src/lib/vix_calculator.ts:441-461 | the weekday branches always land on the first Friday 08:00 more than 14 days out |
| WeeklyExpiries.NextExpirationIsRightIff | src/lib/expiries.ts:33-50 | the offset branches meet that requirement exactly when the target lies in the same slot of the week as the reference |
| WeeklyExpiries.WholeWeeksAreRight | src/lib/expiries.ts:33-50 | a period is right at every instant exactly when it is divisible by 7 |
| WeeklyExpiries.ThreeCalendarsAgree | src/lib/expiries.ts:13-31 | `mfivDates`, `rolloverWeekly` and the closed form give the same near, next and rollover |
| WeeklyExpiries.PeriodTextAgrees | src/lib/expiries.ts:13-31 | the same from the period as text, for every whole number of weeks followed by "D" |
| WeeklyExpiries.DatesBracketTwoWeeks | src/lib/vix_calculator.ts:441-461 | rollover within the coming week, near <= now + 14 days < next, all Fridays 08:00, a week apart |
| WeeklyExpiries.DatesMoveAtRollover | src/lib/vix_calculator.ts:196-205 | the dates are constant up to the rollover instant and there move on by exactly one week |
| TimePeriods.TimePeriodRoundTrip | src/lib/utils/time_period.ts:7-18 | the decimal numeral of n followed by "D" is read back as n, whatever follows; 0 is refused |
| TimePeriods.TimePeriodRejects | src/lib/utils/time_period.ts:8-15 | which strings are refused as badly formed and which as zero, both directions |
| IsoTime.IsoOrderIsTimeOrder | src/lib/utils/expiries.ts:62-69 | string order on ISO instants is time order and distinct instants have distinct strings |
| IsoTime.StringsAgreeWithInstants | src/lib/utils/expiries.ts:62-69 | the availability filter and the default sort on strings agree with the instants |
| ListedExpiries.AscendingIsUnique | src/lib/utils/expiries.ts:69-69 | a strictly ascending list is determined by its elements, so the sort of the map's keys is the list of active expiries |
| ListedExpiries.BuildExpiries | src/lib/utils/expiries.ts:56-131 | grouping, sorting, the reduce pass, pruning and the future map compute `ExpiriesAt` |
| ListedExpiries.SelectNearAndNext | src/lib/utils/expiries.ts:71-95 | the reduce callback ends on the last expiry up to the target and the first beyond it |
| ListedExpiries.PruneAndMap | src/lib/utils/expiries.ts:109-120 | what is left in the map are exactly the unpruned expiries with all their ids |
| ListedExpiries.LookupCharacterised | src/lib/utils/expiries.ts:74-131 | throws exactly when one side of the target has no active expiry; otherwise near and next are the neighbours of the target, now < rolloverAt <= near, and lists and map hold exactly what follows |
| ListedExpiries.ExpiryListIsTheRest | src/lib/utils/expiries.ts:110-110 | the expiry list is every active expiry after next, earliest first |
| ListedExpiries.GroupMembers | src/lib/utils/expiries.ts:65-68 | an expiry is active exactly when an available instrument has it, and its ids are those instruments' |
| ListedExpiries.CatalogueAgreesIff | src/lib/utils/expiries.ts:69-108 | the search agrees with `mfivDates(now, "14D")` exactly when the next three Fridays are active and nothing else expires before the first or between second and third |
| ListedExpiries.FridayCatalogueAgrees | src/lib/utils/expiries.ts:69-108 | on a catalogue of Friday expiries with the next three listed, both agree |
| History.LatestIsLast | src/lib/vix_calculator_v2.ts:193-193 | the reference book holds a symbol exactly if it was quoted, with its last message |
| VixV2.RestartFacts | src/lib/vix_calculator_v2.ts:226-262 | at every rollover the rest of the replay period is positive and shrinks, so the recursion ends |
| VixV2Listings.ExpiriesMove | src/lib/vix_calculator_v2.ts:233-240 | if near stays so does next; the new near is the old next exactly when at most one expiry crossed the target |
| VixV2Runs.RequestCharacterised | src/lib/vix_calculator_v2.ts:125-174 | a stream is asked for exactly the available instruments of near, next and the earliest later expiry, from the reference date to the rollover or for the whole duration again, whichever ends first |
| VixV2Listings.SubscribedExpiry | src/lib/vix_calculator_v2.ts:146-150 | a subscribed message belongs to near, next or the expiry after next |
| VixV2Books.SegmentKeepsBooks | src/lib/vix_calculator_v2.ts:184-222 | a stream keeps the book, the side book and all reports exact, for any order of messages |
| VixV2Books.RolloverIsExactIff | src/lib/vix_calculator_v2.ts:231-260 | for any catalogue, the book after a rollover is exact if and only if the expiries quoted so far make it harmless |
| VixV2Books.RunIsExactIff | src/lib/vix_calculator_v2.ts:176-269 | over whole runs, the book is exact after every rollover if and only if all are harmless; then it is at every report and at the end |
| VixV2Listings.ListedRunIsExactIff | src/lib/vix_calculator_v2.ts:176-269 | on a catalogue listed from the start that is: at every rollover at most one expiry crosses, or the skipped ones were never quoted |
| VixV2Failures.CrowdedRunLeavesStaleQuote | src/lib/vix_calculator_v2.ts:242-260 | a whole replay in which two expiries cross in a day: the run ends with a stale quote on a book that should be empty |
| VixV2Failures.LateListingLeavesStaleQuote | src/lib/vix_calculator_v2.ts:233-242 | a whole replay in which an expiry listed late takes the place of next while near stays, with the same end |
| VixV2Failures.ShortReplaysExist | src/lib/vix_calculator_v2.ts:70-98 | configurations with exactly these replays exist, for any clock and index library |
| VixV2Listings.RunKeepsBooks | src/lib/vix_calculator_v2.ts:176-269 | on a catalogue with at most one expiry crossing between successive expiries of the replay period, the book is exact at every rollover, at every report and at the end of every run |
| VixV2Runs.RunIsBounded | src/lib/vix_calculator_v2.ts:226-268 | at most one rollover per listed expiry of the replay period; `onComplete` once, or never if `buildExpiries` throws |
| VixV2Logs.StreamConsumes | src/lib/vix_calculator_v2.ts:184-268 | a stream rolls over if and only if its first near or next message whose tick reaches the rollover or the end of the period comes before that end; it has consumed exactly the messages up to that one |
| VixV2Logs.RunIsLogged | src/lib/vix_calculator_v2.ts:176-269 | over whole runs: every message meets the reference date that the messages before it lead to, with the expiries of that date, and a report is made if and only if one is due |
| VixV2Logs.ReportIsMadeIff | src/lib/vix_calculator_v2.ts:177-217 | a message makes a report exactly when it is of near or next and its tick is at least the report frequency after the last report of its stream, or after a minute before its reference date |
| VixV2Runs.RunIsFresh | src/lib/vix_calculator_v2.ts:198-307 | `onCompute` gets exactly the indices of the reports; each has the value, dVol and invdVol the library estimated, zero for a missing one, for the message consumed last and the near and next of its reference date |
| ReportClock.TickIsNextMultiple | src/lib/vix_calculator_v2.ts:195-196 | the report clock is the next multiple of five seconds, and not beyond a bound on that grid that the message precedes |
| VixV2Runs.RunKeepsClock | src/lib/vix_calculator_v2.ts:177-217 | reports of one stream are at least the report frequency apart; across streams, replayed or live, at most a minute less if their messages precede their rollovers and expiries lie on the five-second grid |
| VixV2Runs.ReplaysPrecede | src/lib/vix_calculator_v2.ts:125-165 | messages precede their rollovers whenever only replays deliver, within the range they were asked for |
| VixV2Runs.WholeRun | src/lib/vix_calculator_v2.ts:107-123 | all of these for a run from its first lookup |
| VixCalculatorsV2.VixCalculatorV2.FetchIndex | src/lib/vix_calculator_v2.ts:107-114 | runs the machine from its start, or does nothing when the first lookup throws |
| VixCalculatorsV2.VixCalculatorV2.SummaryStream | src/lib/vix_calculator_v2.ts:176-269 | the recursive method with its loop ends in the state of the machine's run |
| VixCalculatorsV2.VixCalculatorV2.OnMessage | src/lib/vix_calculator_v2.ts:188-231 | one pass of the loop body is one step of the machine, with its verdict |
| VixCalculatorsV2.VixCalculatorV2.CreateStream | src/lib/vix_calculator_v2.ts:125-174 | the request: near, next and following symbols, from the reference date to the earlier of rollover and end |
| VixCalculatorsV2.VixCalculatorV2.DeleteEntries | src/lib/vix_calculator_v2.ts:309-314 | exactly the entries of the old near expiry disappear |
| VixCalculatorsV2.VixCalculatorV2.CopyOptions | src/lib/vix_calculator_v2.ts:253-255 | exactly the side book's entries of the new next expiry are copied |
| OptionNames.IncludesIff | src/lib/vix_calculator.ts:315-319 | which symbols the substring test accepts, exactly |
| OptionNames.FridayFilterIsExact | src/lib/vix_calculator.ts:315-319 | between Fridays it accepts exactly the symbols of the expiry |
| OptionNames.FilterConfusesOtherDays | src/lib/vix_calculator.ts:315-319 | 11 April passes the test for 1 April |
| OptionNames.DayTextDiffers | src/lib/vix_calculator.ts:401-427 | the texts compared when the option lists are built are equal only for equal dates |
| VixStrips.ContributionGet | src/lib/vix_calculator.ts:276-313 | the loop computes the sum of the terms, and fails on a book of one leg |
| VixStrips.ContributionIsTrapezoids | src/lib/vix_calculator.ts:276-313 | the sum is the trapezoid rule for price over squared strike plus half a strip at each end |
| VixV1Formulas.ContributionIsRight | src/lib/vix_calculator.ts:276-313 | the contribution is a sum of one term per leg: price over squared strike, times half the distance of the neighbouring strikes, at an end the distance to the only neighbour |
| VixStrips.ContributionIsBounded | src/lib/vix_calculator.ts:276-313 | between 0 and 2 (Kmax - Kmin) maxPrice / Kmin^2, positive for positive prices |
| VixStrips.ContributionIsMonotone | src/lib/vix_calculator.ts:276-313 | never falls when prices rise |
| VixV1Formulas.MidIsRight | src/lib/vix_calculator.ts:253-274 | nothing is stored without a bid; the mark if bid and ask add up to three marks or more; else the number halfway between bid and ask; and never zero |
| VixV1Formulas.MidIsSymmetric | src/lib/vix_calculator.ts:256-265 | exchanging a bid and an ask, neither zero, stores the same |
| VixV1Formulas.BookIsLastMids | src/lib/vix_calculator.ts:253-274 | the mid book holds for every symbol the mid of its last quote that stores one |
| VixBooks.SetEntryIsUpdate | src/lib/vix_calculator.ts:273-273 | setting a mid replaces the symbol's entry and no other |
| VixBooks.FinalBookGet | src/lib/vix_calculator.ts:321-348 | the loop, the average and the sort compute `FinalBook` |
| VixBooks.FinalBookShape | src/lib/vix_calculator.ts:321-348 | a book exists exactly when the strike has both mids; it is the puts below, the calls above and one average, in strictly increasing strikes |
| VixV1Formulas.FinalBookIsRight | src/lib/vix_calculator.ts:321-348 | in terms of the whole mid book: the legs are exactly the puts of the expiry below the strike, its calls above, and the average of call and put at the strike, in strictly increasing strikes |
| VixBooks.FinalBookIsPositive | src/lib/vix_calculator.ts:321-348 | positive mids make positive legs |
| VixBooks.BestPairIsMinimal | src/lib/vix_calculator.ts:357-372 | the chosen strike has the smallest call-put gap of all complete pairs, the first on ties; none without a complete pair |
| VixV1Formulas.ForwardIsParity | src/lib/vix_calculator.ts:350-382 | put-call parity: forward less strike is the call less the put, grown at 0.56 percent up to the expiry of the pair, for a listed pair with none closer |
| VixBooks.AdjacentIsGreatest | src/lib/vix_calculator.ts:388-399 | the adjacent strike is the greatest listed one up to the forward price |
| VixBooks.AdjacentStrikeGet | src/lib/vix_calculator.ts:388-399 | the loop computes that strike |
| VixBooks.AdjacentMeetsChosen | src/lib/vix_calculator.ts:379-399 | it is at or above the chosen strike exactly when the call is worth at least the put there |
| VixBooks.ContributesIff | src/lib/vix_calculator.ts:276-348 | the entries of an expiry have a book with a contribution exactly when the strike has both mids and there is a put below or a call above it |
| VixV1Runs.MidIsPositive | src/lib/vix_calculator.ts:253-274 | a stored mid is positive and below one and a half marks |
| VixV1Runs.WeightsInterpolate | src/lib/vix_calculator.ts:215-242 | A + B = 1, 0 < A <= 1, 0 <= B < 1, and A NT1 + B NT2 is fourteen days |
| VixV1Runs.BlendIsBetween | src/lib/vix_calculator.ts:245-245 | the blended variance lies between the two inputs |
| VixV1Runs.FilterIsExact | src/lib/vix_calculator.ts:315-319 | on the book of a run the filter selects exactly the entries of one expiry |
| VixV1Runs.ExpiredEntriesAreIgnored | src/lib/vix_calculator.ts:201-236 | the whole computation equals that on a book without expired entries |
| VixV1Runs.NoPairNoIndex | src/lib/vix_calculator.ts:338-381 | if no pair of the near or of the next list is complete, the whole computation fails |
| VixV1Runs.CalculateSucceedsIff | src/lib/vix_calculator.ts:214-251 | it succeeds exactly when the book has, for both expiries, a call and a put at the adjacent strike and one more option out of the money |
| VixV1Runs.CalculationIsSound | src/lib/vix_calculator.ts:214-251 | whenever it succeeds: strictly ascending books, positive prices and contributions, interpolating weights, blended variance between both |
| VixV1Runs.CalculationIsRight | src/lib/vix_calculator.ts:214-251 | every successful computation, for both expiries: time to expiry, parity forward, adjacent strike, final book, contribution, and strike^2 variance == 2 growth strike^2 contribution - (forward - strike)^2; the blend is linear interpolation at 14 days |
| VixV1Formulas.VarianceIsAtMost | src/lib/vix_calculator.ts:238-239 | a variance is at most twice the grown contribution, and just that exactly when forward price and strike agree |
| VixV1Logs.RequestIsRight | src/lib/vix_calculator.ts:115-150 | a stream is asked for exactly the instruments that read like near or next, from the reference date to the rollover or for the whole duration again, whichever ends first |
| VixV1Logs.StreamConsumes | src/lib/vix_calculator.ts:152-205 | a stream rolls over if and only if its first quote whose tick reaches the rollover or the end of the period comes before that end; it has consumed exactly the quotes up to that one |
| VixV1Logs.RunIsLogged | src/lib/vix_calculator.ts:152-212 | over whole runs: every quote meets the reference date that the quotes before it lead to, and is followed by a publication if and only if one is due, with the variance last computed, times 365/14, and its own underlying price |
| VixV1Logs.PublicationIsMadeIff | src/lib/vix_calculator.ts:153-190 | a quote is followed by a publication exactly when its tick is at least the report frequency after the last one of its stream, or after a minute before its reference date |
| VixV1Logs.PublicationsAreSpaced | src/lib/vix_calculator.ts:153-175 | publications of one stream are at least the report frequency apart; across streams at most a minute less, if no quote has a tick beyond a later reference date |
| VixV1Runs.RunIsSound | src/lib/vix_calculator.ts:152-212 | over every run the book is the last positive mid of every symbol, every quote makes one computation, which succeeds exactly when both expiries have a strip and then is sound and right, and `onComplete` is called once |
| VixV1Runs.WholeRun | src/lib/vix_calculator.ts:102-212 | all of this for a run from its start |
| VixV1Pruning.PrunedRunIsSame | src/lib/vix_calculator.ts:196-205 | a run that drops the entries of expired options at every rollover has the same computations, publications and index |
| VixV1Pruning.WholeRunIsSame | src/lib/vix_calculator.ts:196-212 | the same from the start, with the empty book |
| VixV1Pruning.CurrentOfSet | src/lib/vix_calculator.ts:273-319 | dropping expired entries commutes with setting a mid, order included |
| VixV1Runs.RolloverMovesOneWeek | src/lib/vix_calculator.ts:196-205 | a rollover maps (near, next, rollover) to (next, next + 7d, rollover + 7d) |
| VixCalculators.VixCalculator.SummaryStream | src/lib/vix_calculator.ts:152-212 | the recursive method with its loop ends in the state of the machine's run |
| VixCalculators.VixCalculator.OnQuote | src/lib/vix_calculator.ts:155-205 | one pass of the loop body is one step of the machine, with its verdict |
| VixCalculators.VixCalculator.MidBookChange | src/lib/vix_calculator.ts:253-274 | stores the mid of the quote, or leaves the book alone |
| VixCalculators.VixCalculator.ForwardPriceGet | src/lib/vix_calculator.ts:350-382 | the pass over the distinct series computes the forward price of the best pair |
| VixCalculators.VixCalculator.CalculateIndex | src/lib/vix_calculator.ts:214-251 | recomputes the variance, and keeps the old one where the source throws |
| VixCalculators.VixCalculator.SetupRollover | src/lib/vix_calculator.ts:441-461 | sets the three dates to those of `RolloverWeekly` |
| VixCalculators.VixCalculator.BuildOptionLists | src/lib/vix_calculator.ts:401-423 | the lists hold exactly the instruments whose expiry text matches |
| TimeBuckets.BucketComputable.Compute | src/computables/option_bucket.ts:64-80 | one message is one step: at most one bucket, and the second check never fires |
| TimeSpans.RunFollowsCut | src/computables/option_bucket.ts:64-163 | for messages of any type in any order, a bucket is emitted for each closed span of the cut, with the own messages of the span, and the record in progress holds the open span |
| TimeSpans.CutIsUnique | src/computables/option_bucket.ts:94-113 | a span runs from the first own message after the span before to the first message with a larger bucket number; this determines the cut |
| TimeBuckets.RunRefinesGroups | src/computables/option_bucket.ts:64-163 | in a stream of own messages the emitted buckets are the groups of equal running maximum except the open last one, with count, first time and last fields |
| TimeBuckets.GroupsAreLevels | src/computables/option_bucket.ts:94-113 | the groups partition the stream in order, share their running maximum, and the maxima strictly increase |
| TimeBuckets.RunConserves | src/computables/trade_bucket.ts:58-123 | emitted counts plus the open count are the messages consumed, also among messages of other types |
| TimeSpans.RunIsStamped | src/computables/option_bucket.ts:99-107 | every bucket is stamped with the end of its period, after its first and last messages and not after the closing one |
| TimeSpans.RunStampsIncreaseIff | src/computables/option_bucket.ts:64-113 | the stamps strictly increase if and only if after every closing by a foreign message the next emitted bucket opens with a larger bucket number |
| TimeSpans.StampsIncreaseWhen | src/computables/trade_bucket.ts:58-107 | so they do for own messages in any order and for any messages in time order |
| TimeSpans.RepeatedStamp | src/computables/option_bucket.ts:64-113 | a foreign message and older messages after it make the same period be emitted twice |
| TimeSpans.OptionBuckets | src/computables/option_bucket.ts:41-164 | over a stream of summaries each bucket has the fields of the last summary of its period, missing numbers as zero, their count and times, and symbol, exchange and local time of the summary that closed it |
| TimeSpans.TradeBuckets | src/computables/trade_bucket.ts:35-145 | the same over a stream of trades |
| IngestServices.IngestService.Process | services/ingest.service.ts:147-159 | keeps index and cache in agreement with the message history |
| IngestServices.IngestService.CacheMessage | services/ingest.service.ts:169-184 | adds the symbol to its expiry's set and caches the summary with defaults |
| IngestServices.IngestService.FetchOptionSummaries | services/ingest.service.ts:186-205 | answers from the cache what `FetchAfter` says about the history |
| IngestServices.FirstSeenIsInOrder | services/ingest.service.ts:171-177 | symbols of an expiry come in the order of their first message |
| IngestServices.FetchReturnsLatest | services/ingest.service.ts:186-205 | each symbol once with its last message: a present price kept, a missing one zero, all else as quoted; an error exactly for an unseen expiry |
| IngestServices.FetchIsForExpiryIff | services/ingest.service.ts:186-205 | all summaries returned expire then exactly when every symbol that is quoted with another expiry later is quoted with this one again after that |

## Left out

- `compute` of node-volatility-mfiv, and the tardis-dev streams and instrument queries: libraries not part of this model; they are parameters.
- The order in which `compute` sees the V2 book: the book is a map without iteration order.
- The order of the symbols in a V2 stream request: it is a set.
- The constructors' reading of the configuration: start dates cut to the minute, a report frequency of 15 minutes or 5 seconds when none is given.
- The argument `breakOnFirstSuccess` of both `summaryStream` methods: no caller sets it.
- A catalogue that changes between lookups otherwise than by listing times: one catalogue serves a run.
- Floating point, `NaN`, `Math.sqrt` and the reported dVol and invdVol of V1: variances before the root, over `real`.
- VixCalculators.VixCalculator.CalculateIndex: ends at the variance under the square root; the root of a negative variance, which is `NaN`, and the index made from the root are not computed.
- The dayjs parse of an expiry text in `forwardPriceGet`: the year fraction is a parameter.
- Instants outside the range of JavaScript dates.
- TimePeriods.TimePeriodRejects: numerals that are not plain digits go to JavaScript's `Number`, which is not part of this model.
- ListedExpiries.FridayCatalogueAgrees: stated for 14 days, the period `mfivDates` is used with.
- VixV1Runs.RunIsSound: for expiries of the years 2000 to 2099, since the two-digit year of a symbol does not tell centuries apart.
- `expiryTypeToOrdinals`: FridayT08:00:00Z is the only expiry type, and its parts are constants.
- `rolloverSemiWeekly`, and the average over the log in `fetchIndex`: never called, never filled.
- The configured name, kind and interval that buckets carry along, and `fetchInstruments` of the ingest service.
- Cache expiry times, `services/ws.service.ts`, databases, cron, IPFS, rates, tokens, HTTP and logging.
