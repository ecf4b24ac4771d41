# Verified model of the research engine

This project models the deterministic core of the trading research engine in Dafny and proves what that core is
for: nothing depends on the future, nothing is lost, and each loop computes what its declarative rule says.

- **Candle synchronisation.** A paging client fills the missing minutes of an insert-only store from a provider
  that may answer anything: any page, any cursor, any error, each answer depending on everything asked before.
- **Indicator state machines.** Fair value gaps, liquidity zones, market structure, swing structure, equal highs
  and lows and order blocks, as loops over candles that change lists of objects in place.
- **Resampling and replay.** The window a backtest slices for each role against the window the live engine
  resamples.
- **Execution and the machines around it.** The pending/open/closed trade machine with its accounting, the
  summaries of trades, the reward/risk gate, the ordered decision, the layered topological sort with execution
  along it, the parity of a replayed evaluation with the live one, and the batching notification queue.

Each loop is a method with its invariants, proved against a specification; what the specification promises is
then proved for all inputs by lemmas: exact characterisations in both directions, life-cycle laws, conservation,
and independence from later data. The files named `...Outcomes` tie what each operation answers to its
inputs in plain arithmetic, down to the constants, without the functions that specify it.

| file | contents |
|---|---|
| `Sequences.dfy`, `Candles.dfy` | shared vocabulary: filtering, stable sorting, candles |
| `Simulator.dfy`, `LedgerLaws.dfy`, `Execution.dfy`, `LedgerOutcomes.dfy` | the trade machine, the laws of its ledger, accounting and the loops; the ledger from its inputs |
| `Averages.dfy`, `FairValueGaps.dfy`, `GapOutcomes.dfy` | running averages; fair value gaps; the gaps from the bars |
| `CandleStore.dfy` | table and watermark |
| `MarketPages.dfy`, `PagingRules.dfy`, `MarketSync.dfy`, `HistoricalSync.dfy`, `PagingOutcomes.dfy` | pages and missing ranges; when paging succeeds; bounded paging; filling missing ranges; success from the provider's answers |
| `Pivots.dfy`, `PivotLaws.dfy`, `PivotOutcomes.dfy` | pivots and the zigzag |
| `LiquidityZones.dfy`, `LiquidityLaws.dfy`, `LiquidityKnowledge.dfy`, `RecentringInstance.dfy`, `LiquidityOutcomes.dfy` | zones, their laws, when they are known and what they oppose, an instance; each step from the bars |
| `MarketStructure.dfy`, `StructureOutcomes.dfy` | shifts and breaks |
| `Swings.dfy`, `SwingLaws.dfy`, `SwingOutcomes.dfy`, `EqualLevels.dfy`, `EqualOutcomes.dfy` | swing pivots and their laws; equal levels |
| `OrderBlocks.dfy`, `OrderBlockLaws.dfy`, `OrderBlockOutcomes.dfy` | order blocks and their laws |
| `Resampling.dfy`, `Replay.dfy` | complete bars; replay windows |
| `IndicatorGraph.dfy` | topological order and execution |
| `Parity.dfy` | a replayed evaluation against the live one, up to the decision |
| `NotificationLedger.dfy`, `NotificationAdapter.dfy`, `NotificationSteps.dfy`, `NotificationQueue.dfy`, `NotificationRouting.dfy`, `NotificationWindow.dfy`, `NotificationOutcomes.dfy` | accounting of events; calls of an adapter; transitions; one queue; all destinations; deliveries over whole runs; each transition in plain terms |
| `Drawdown.dfy`, `Medians.dfy`, `Metrics.dfy`, `MetricsOutcomes.dfy` | greatest fall; median; summaries; the figures from the trades |
| `RiskLevels.dfy`, `DecisionPolicy.dfy` | reward/risk gate; ordered decision |

`dafny verify dfyconfig.toml` checks the whole project.

## Modelling choices

Prices and amounts are exact reals. Times are integer milliseconds. Hashes, identifiers, instruments and symbols are
natural numbers; where the code sorts by an identifier, the model sorts by the number. Market type and interval are
constants of every closed candle and are not fields. Provider-specific source fields are one opaque value that takes
part in equality. What lies outside is a parameter that ranges over everything: a provider's answers depend on the
whole call history; clock readings, adapter answers and failures to record a success are arbitrary sequences; what the
store holds at the start is arbitrary; a plugin is an arbitrary function. A price text is either the non-negative
value that fixed-point syntax says, or another text. A decimal division by zero raises in the code and is the result
`DivisionByZero` here.

## Where the simple statement fails

Each of these has its exact condition and an instance.

- A replay slice can hold one bar more than the live series: `Replay.ReplayEqualsLive`, `Replay.StraddlerExists`,
  `Replay.StraddlerInstance`.
- The watermark check of the live path compares the watermark with rows loaded only up to the end of the range, so it
  rejects a store without a gap when the watermark lies past that end: `MarketPages.WatermarkCheckExact`,
  `MarketPages.WatermarkFalseAlarm`.
- The replay context carries no timeframes, so where a role has no bar a plugin that asks for its timeframe raises in the
  replay and not live: `Parity.SameView`, `Parity.EmptyRoleDiffers`, `Parity.EmptyRoleInstance`.
- A provider whose every cursor names a minute still missing can be refused as making no progress, when cursors from
  both ends meet: `MarketSync.MarketSyncService.SyncMissingRange` with `PagingRules.MeetingCursorsStuck`,
  `PagingRules.MeetingCursorsInstance`.
- Order blocks can have their upper bound below their lower bound: `OrderBlocks.ExchangedIfVolatile`,
  `OrderBlockLaws.ExchangedInstance`.
- Zigzag indices are not strictly decreasing, since a high and a low may stand on one bar:
  `PivotLaws.SharedIndexMeans`, `PivotLaws.SharedIndexInstance`.
- A liquidity zone that is re-centred while PARTIAL stays PARTIAL, known from the re-centring bar, so it need not be
  known at a close that entered it: `LiquidityKnowledge.PartialKnown`, `RecentringInstance.RecentredAwayInstance`.
- The risk gate raises, and observes nothing, when the composed stop is negative: `RiskLevels.RefusedMeans`,
  `RiskLevels.NegativeStopRefused`.
- `decide` only asks that the four level fields are texts, and raises when the constructor of the READY decision
  refuses them: `DecisionPolicy.RaisesMeans`, `DecisionPolicy.RaisingInstances`. Levels of the risk gate are never
  refused: `DecisionPolicy.GateIsNeverRefused`.
- Duplicates inside one pending notification batch are not collapsed: `NotificationSteps.TwiceHandedOver`,
  `NotificationSteps.TwiceInstance`.

## Model

| member | source | states |
|---|---|---|
| `Execution.ExecutionSimulator.Scan` | src/trading_research/application/execution_simulator.py:135-190 | the one pass over ordered candles with `pending`, `opened` and `seen_decisions` leaves exactly the records of the machine's fates, or a division by zero exactly if some fate cannot be accounted for |
| `Execution.ExecutionSimulator.OnCandle` | src/trading_research/application/execution_simulator.py:137-170 | expiry, then fill, then stop, target or timeout against one candle, kept in step with the machine |
| `Execution.ExecutionSimulator.ExitOn` | src/trading_research/application/execution_simulator.py:155-170 | an exit happens exactly when the candle touches the stop, touches the target after the entry minute, or reaches the holding limit; its reason and both exit prices |
| `Execution.ExecutionSimulator.OfferAtClose` | src/trading_research/application/execution_simulator.py:171-184 | the READY decisions offered at one close: which becomes pending and which hashes are seen afterwards |
| `Execution.ExecutionSimulator.RunInstrument` | src/trading_research/application/execution_simulator.py:122-190 | the records of one instrument are those of the declarative ledger, one for each accepted decision, for candles and evaluations in any order |
| `Execution.ExecutionSimulator.Run` | src/trading_research/application/execution_simulator.py:93-120 | over all instruments: the result is in order of signal time, then instrument, then hash, and the records of every instrument are those of its own ledger, from its own inputs only |
| `Simulator.MachineFollowsRule` | src/trading_research/application/execution_simulator.py:137-190 | for every input the one-pass machine computes the declarative ledger: the fates of exactly the accepted signals |
| `LedgerLaws.AcceptanceRule` | src/trading_research/application/execution_simulator.py:171-184 | a signal is accepted if and only if it is READY, its hash was not offered READY before, and every earlier accepted trade is over by then |
| `LedgerLaws.FatesOfAccepted` | src/trading_research/application/execution_simulator.py:137-190 | each accepted decision gives exactly one record, in order of acceptance |
| `LedgerLaws.FateMeaning` | src/trading_research/application/execution_simulator.py:138-170 | from the candles and prices alone: entry at the first later candle that opens before the signal's time plus one millisecond plus the configured minutes and touches the limit; exit at the first candle that closes the trade, the stop winning ties and the target only after the entry minute; expired exactly if none fills |
| `LedgerLaws.FilledWithin` | src/trading_research/application/execution_simulator.py:138-152 | on gap-free candles a signal is filled exactly if one of the next `expiryMinutes` candles trades at its limit or through it, at the first such candle; otherwise it is over with the candle after those, if the data goes on |
| `LedgerLaws.LifetimesDisjoint` | src/trading_research/application/execution_simulator.py:171-184 | trades of one instrument never overlap: each is over no later than the candle whose close offers the next |
| `LedgerLaws.HoldingLimit` | src/trading_research/application/execution_simulator.py:163-170 | on gap-free candles no trade outlives the maximum holding time, a timeout falls exactly on it, and a trade ended by the data stays below it |
| `LedgerLaws.SignalTimesIncrease` | src/trading_research/application/execution_simulator.py:131-134 | accepted decisions of an instrument have strictly increasing evaluation times, so its records need no further sorting |
| `LedgerLaws.StateIsCausal` | src/trading_research/application/execution_simulator.py:135-184 | later candles and evaluations do not change the state reached after the known ones |
| `LedgerLaws.LedgerIsCausal` | src/trading_research/application/execution_simulator.py:135-190 | appending later data keeps every earlier record, except the one forced by the end of the data |
| `LedgerOutcomes.LedgerOutcome` | src/trading_research/application/execution_simulator.py:122-190 | the ledger from its inputs: the candles in order of time, the evaluations at their closes in order of candle and hash, and for exactly the READY ones that are first of their hash and find every earlier trade over, their fates in order |
| `LedgerOutcomes.OwnRecordsMean` | src/trading_research/application/execution_simulator.py:93-190 | the records of one instrument are exactly those of the fates of its own taken signals, from its own candles and evaluations |
| `LedgerOutcomes.SameMinuteInOrder` | src/trading_research/application/execution_simulator.py:136 | candles of one minute keep the order in which they were given |
| `Execution.InstrumentRecordsInOrder` | src/trading_research/application/execution_simulator.py:109-119 | each instrument's records carry its name, have strictly increasing signal times and are already in output order |
| `Execution.RefusedForever` | src/trading_research/application/execution_simulator.py:246-264 | a trade whose accounting divides by zero cannot be recovered by later candles |
| `Execution.RecordOutcome` | src/trading_research/application/execution_simulator.py:216-289 | every field of a record in plain arithmetic: identity, times and duration; the executed prices, gapped stops included; fees, slippage cost, gross and net returns in price and in R; it exists unless entry is zero or equals the stop |
| `Execution.NetPnlSplits` | src/trading_research/application/execution_simulator.py:255-264 | net profit is gross profit less both fees and the slippage cost, in exact arithmetic |
| `Execution.SlippageIsRateOnBothLegs` | src/trading_research/application/execution_simulator.py:257-264 | slippage cost is the rate times entry plus base exit |
| `Execution.NetIsGrossLessCosts` | src/trading_research/application/execution_simulator.py:255-287 | the recorded returns and R multiples: net is gross less entry fee, exit fee and slippage |
| `Execution.CostsNonNegative` | src/trading_research/application/execution_simulator.py:257-264 | with a slippage rate of at most one and non-negative rates every cost is non-negative |
| `Execution.NetNeverBeatsGross` | src/trading_research/application/execution_simulator.py:285-287 | net R is at most gross R |
| `Execution.ExitsInR` | src/trading_research/application/execution_simulator.py:214-219 | with stop and target on the right sides of the entry, a stop costs at least one R, gapped openings included, and a target earns exactly reward over risk |
| `Averages.TrueRanges` | src/trading_research/indicators/base.py:197-208 | each range is the bar's own, widened to the previous close |
| `Averages.WilderAtr` | src/trading_research/indicators/base.py:211-221 | the smoothed average at every bar, unknown before the first `length` bars |
| `Averages.AtrIsCausal` | src/trading_research/indicators/base.py:211-221 | the average at a bar does not depend on later bars |
| `Averages.AtrOutcome` | src/trading_research/indicators/base.py:197-221 | true ranges and averages bar by bar in plain arithmetic: the first average is the mean of the first `length` ranges, each later one weighs the one before `length - 1` to one against the new range |
| `Averages.MarginsOutcome` | src/trading_research/indicators/ict.py:117-137 | a margin is the configured fraction of that average, known exactly where it is |
| `Averages.AtrNonNegative` | src/trading_research/indicators/base.py:211-221 | the average is known from bar `length - 1` on and never negative |
| `Averages.SimpleMovingAverage` | src/trading_research/indicators/base.py:224-233 | the running total gives exactly the mean of each window of `length` values |
| `Averages.MeansOutcome` | src/trading_research/indicators/base.py:224-233 | the mean of a window is the difference of two running sums over its length |
| `FairValueGaps.ActiveGaps` | src/trading_research/indicators/ict.py:470-557 | the loop with mutable gaps returns exactly the declared list, sorted by knowledge and event |
| `FairValueGaps.Detect` | src/trading_research/indicators/ict.py:505-530 | an imbalance moves the running gap of its side to the new bar or puts a new gap in front; the gap it moves is first in the list and still ACTIVE |
| `FairValueGaps.TouchEach` | src/trading_research/indicators/ict.py:532-550 | what one bar does to every gap object |
| `FairValueGaps.ActiveListExact` | src/trading_research/indicators/ict.py:470-557 | the returned gaps are exactly those of maximal runs of consecutive imbalances, with the last bar's bounds, that no later bar traded through; in strictly descending order |
| `GapOutcomes.GapsOutcome` | src/trading_research/indicators/ict.py:470-557 | from the bars alone: which bars leave an imbalance, against the high or low two bars before and the mean body, and which gaps, with what bounds and state, are open at the end, in order |
| `FairValueGaps.DeclaredMeaning` | src/trading_research/indicators/ict.py:532-557 | kept if and only if no later bar trades strictly through the far side; ACTIVE if and only if none enters; PARTIAL is known at the first bar that enters |
| `FairValueGaps.GapsOfPrefix` | src/trading_research/indicators/ict.py:470-557 | the gaps of the first n candles are exactly those the whole series has declared after n bars |
| `FairValueGaps.OneSided` | src/trading_research/indicators/ict.py:499-504 | a bar never leaves a gap on both sides |
| `FairValueGaps.MarksMark` | src/trading_research/indicators/ict.py:499-528 | every imbalance has its lower bound strictly below its upper bound |
| `CandleStore.CandleRepository.StoreCandlePage` | src/trading_research/adapters/persistence/sqlite.py:543-601 | a page is stored whole or not at all, with the exact cause of every refusal; on any error the table and the watermark are as before; on success the watermark has moved as `AdvanceSyncState` says |
| `CandleStore.CandleRepository.ScanPrefix` | src/trading_research/adapters/persistence/sqlite.py:617-629 | the scan finds the last minute of the unbroken run from the required start, if the run exists |
| `CandleStore.CandleRepository.AdvanceSyncState` | src/trading_research/adapters/persistence/sqlite.py:603-642 | if the required start is stored and no older watermark lies more than a minute before it, there is a watermark, at least the old one and at least every minute to which the rows are unbroken from the start, equal to the old one or itself such a minute, with the given sync time; otherwise, and for every other market, nothing changes |
| `CandleStore.CandleRepository.LoadCandles` | src/trading_research/adapters/persistence/sqlite.py:644-659 | exactly the stored rows of the market with open times between the two bounds, in strictly ascending order of time |
| `CandleStore.InsertedMeaning` | src/trading_research/adapters/persistence/sqlite.py:573-591 | an insertion succeeds if and only if no row conflicts; then old rows are unchanged, the page is stored, and nothing else is added |
| `CandleStore.WatermarkHonest` | src/trading_research/adapters/persistence/sqlite.py:603-642 | over any sequence of page stores with any required starts the watermark never decreases, and every minute from the start it was first created at up to it is stored |
| `CandleStore.WatermarkHonestFromEmpty` | src/trading_research/adapters/persistence/sqlite.py:603-642 | the same between any two moments of a history from the empty table |
| `CandleStore.WrittenKeepsHonest` | src/trading_research/adapters/persistence/sqlite.py:603-642 | whatever some page stores have made of a table, no watermark has fallen and each is backed from its anchor |
| `MarketPages.ValidatePage` | src/trading_research/application/market_sync.py:193-224 | a page is accepted if and only if its distinct candles belong to the request, agree, and are one per minute without a hole |
| `MarketPages.MissingRanges` | src/trading_research/application/market_sync.py:177-191 | for any two bounds, the missing ranges are the maximal runs of absent steps from the start, the last one reaching to the end |
| `MarketPages.RunsOfExact` | src/trading_research/application/market_sync.py:177-191 | the runs the scan finds are disjoint, maximal, in order, cover every absent minute and count them |
| `MarketPages.MisalignedRanges` | src/trading_research/application/market_sync.py:177-191 | from a start that is no minute the whole range is missing, and begins at a time that no request can name |
| `MarketPages.RangesAreFresh` | src/trading_research/application/market_sync.py:71-84 | the ranges hold no stored minute, cover every missing one, and have as many minutes as are missing |
| `MarketSync.MarketSyncService.ValidateSyncState` | src/trading_research/application/market_sync.py:163-175 | accepts if and only if every minute from the start to a watermark at or past it is among the rows loaded |
| `MarketPages.WatermarkCheckExact` | src/trading_research/application/market_sync.py:163-175 | that check passes if and only if the watermark lies before the start, or lies within the range with no minute missing up to it |
| `MarketPages.WatermarkFalseAlarm` | src/trading_research/application/market_sync.py:163-175 | a store without a gap that the check rejects, because the watermark lies past the end of the range |
| `MarketSync.MarketSyncService.MoveWindow` | src/trading_research/application/market_sync.py:136-143 | exactly when the cursor is refused as no progress, exactly when as out of bounds, and otherwise which end of the window moves to it |
| `MarketSync.MarketSyncService.TakePage` | src/trading_research/application/market_sync.py:110-134 | one page: exactly its minutes are added to the store, and two pages never conflict |
| `MarketPages.PageIsNew` | src/trading_research/application/market_sync.py:122-130 | a page of the current window shares no minute with the pages accepted before |
| `MarketSync.MarketSyncService.SyncMissingRange` | src/trading_research/application/market_sync.py:96-148 | against any provider the paging ends, with at most one request per minute of the run, all inside it; success means the run is stored without a hole; the conflict across pages is never reported; bounds that no request can name are refused, exactly those, before anything is asked; of a run of which nothing is stored it succeeds if and only if the pages, followed by their cursors, fill it without a hole |
| `MarketSync.MarketSyncService.OnePage` | src/trading_research/application/market_sync.py:110-143 | one page and its cursor against the rule of paging: what is accepted, whether a hole is left, and where the window moves |
| `MarketSync.MarketSyncService.Fulfil` | src/trading_research/application/market_sync.py:71-94 | all missing ranges are synchronised one after the other and the range is read back: the rows, the requests, when it succeeds, and that the watermark reaches the end where the old one joins the range |
| `MarketSync.MarketSyncService.SyncRange` | src/trading_research/application/market_sync.py:49-94 | against any provider and for any bounds: on return the range holds exactly one candle of the requested identity per minute; on any error old rows are unchanged and new rows lie in the range; requests name only minutes missing before, at most one per missing minute; with minute bounds from the epoch on no request is malformed; it succeeds if and only if the provider answers its queries, no stored symbol or watermark objects and every missing run can be paged through; after success with something missing, a range the old watermark joins has its watermark at or past its end; and the table is the old one after some page stores, so its watermarks are still backed |
| `PagingRules.ForwardProviderSucceeds` | src/trading_research/application/market_sync.py:49-148 | from any provider that is up to date and pages forwards a closed range of minutes is synchronised if and only if no stored symbol and no watermark objects |
| `PagingOutcomes.PagedOutcome` | src/trading_research/application/market_sync.py:96-148 | paging through a run succeeds if and only if it is a walk: every page has, once each, the minutes it should have of the right identity, every cursor is new and names the minute after the page's last or before its first inside the window, and the page that says it is complete fills what is left |
| `PagingOutcomes.SyncedOutcome` | src/trading_research/application/market_sync.py:49-94 | a range is synchronised if and only if the provider accepts the instrument, gives its time and a latest closed candle not before the end, every stored row between the bounds has the symbol, the watermark is backed where it is looked at, and all missing ranges can be walked through one after the other |
| `PagingOutcomes.BecomesOutcome` | src/trading_research/application/historical_sync.py:126-164 | a historical range becomes ready if and only if it is one of whole minutes from the epoch on, the provider accepts it and has closed it, and every missing range can be synchronised |
| `PagingRules.MeetingCursorsStuck` | src/trading_research/application/market_sync.py:133-143 | cursors from both ends that name the same missing minute: the second is refused, and the run with it |
| `PagingRules.MeetingCursorsInstance` | src/trading_research/application/market_sync.py:133-143 | the same for three minutes and two pages of one candle each |
| `HistoricalSync.HistoricalRangeSyncService.Prepare` | src/trading_research/application/historical_sync.py:131-140 | exactly a malformed range is refused before the provider is asked; otherwise it goes on if and only if the provider knows the instrument and the range has closed; the missing ranges come from the rows alone |
| `HistoricalSync.HistoricalRangeSyncService.FillRanges` | src/trading_research/application/historical_sync.py:137-149 | each missing range is synchronised on its own, requesting only minutes still missing; all are filled if and only if each can be |
| `HistoricalSync.HistoricalRangeSyncService.Conclude` | src/trading_research/application/historical_sync.py:150-164 | the completed range loads back with one candle per minute, and old and fetched rows add up to the total |
| `HistoricalSync.HistoricalRangeSyncService.SyncRange` | src/trading_research/application/historical_sync.py:126-164 | on success one candle per minute and row counts that add up; requests name only missing minutes; once the range is complete a rerun requests nothing and changes nothing; the range becomes ready if and only if it is well-formed, the queries are answered, it has closed, and every missing run can be synchronised |
| `Pivots.PivotCandidates` | src/trading_research/indicators/ict.py:53-66 | the pivots confirmed by one later bar, in order of confirmation |
| `Pivots.Extreme` | src/trading_research/indicators/ict.py:59-65 | the most extreme price of a slice, as what every price beyond it exceeds |
| `Pivots.CandidateMap` | src/trading_research/indicators/ict.py:121-123 | the candidates grouped by the bar that confirms them |
| `Pivots.ZigzagList.Update` | src/trading_research/indicators/ict.py:69-79 | a point is put in front when it turns, replaces the newest when it exceeds it, and otherwise changes nothing |
| `Pivots.HeldPoints` | src/trading_research/indicators/ict.py:69-79 | the list holds points of the series, newest first |
| `Pivots.HeldAreLeaders` | src/trading_research/indicators/ict.py:69-79 | the list holds exactly the first most extreme point of each run of equal direction |
| `Pivots.ZigzagAlternates` | src/trading_research/indicators/ict.py:69-79 | neighbouring points of the list have opposite directions |
| `Pivots.ZigzagShape` | src/trading_research/indicators/ict.py:69-79 | over a whole series the list alternates, never runs forward in time, and holds each pivot of a direction at most once; equal indices are possible only for a high and a low of one bar |
| `PivotOutcomes.ListsOutcome` | src/trading_research/indicators/ict.py:53-79 | the list after each bar from the one before it: a bar strictly beyond its neighbours to the left and at least level with the one to the right gives a high, a low or both, and what each does to the list |
| `PivotLaws.SharedIndexMeans` | src/trading_research/indicators/ict.py:69-79 | two points of the list share an index if and only if the high and the low of one bar both lead their runs |
| `PivotLaws.SharedIndexInstance` | src/trading_research/indicators/ict.py:57-79 | a series of five bars whose list holds the high and the low of one bar |
| `Pivots.PointsAreCausal` | src/trading_research/indicators/ict.py:53-66 | pivots confirmed by the first bars do not depend on later ones |
| `LiquidityZones.MatchingPoints` | src/trading_research/indicators/ict.py:96-111 | the loop over the newest fifty points with its early stop |
| `LiquidityLaws.MatchingExact` | src/trading_research/indicators/ict.py:96-111 | a point matches if and only if it has the direction, lies strictly within the margin, and no newer point of the direction lies beyond the margin |
| `LiquidityZones.PlaceZone` | src/trading_research/indicators/ict.py:150-175 | a new cluster re-centres the newest zone of its side if that shares the anchor and is not FULL, and otherwise adds a zone in front |
| `LiquidityZones.SettleOne` | src/trading_research/indicators/ict.py:177-195 | one close against one zone; the opposing level is that of the newest zone of the other side |
| `LiquidityZones.ConfirmPivot` | src/trading_research/indicators/ict.py:127-175 | one pivot: the zigzag, the zones and the clusters seen |
| `LiquidityZones.FindZones` | src/trading_research/indicators/ict.py:114-196 | all bars; the result holds exactly the zones of the machine, as often as it does, latest known first, those known together by latest event, and ties in list order |
| `LiquidityOutcomes.ZonesOutcome` | src/trading_research/indicators/ict.py:96-195 | every step of the machine in plain terms, from nothing: which points gather around a new one among the newest fifty, when they make a cluster, which zone they re-centre or add and with what bounds, and what each close does to each zone |
| `LiquidityLaws.ClusterIsPlaced` | src/trading_research/indicators/ict.py:127-175 | a changed pivot whose cluster is large enough and new gets exactly one zone around the cluster's centre, the newest of its side and not FULL; zones of the other side stay, and without such a cluster nothing changes |
| `LiquidityLaws.ZonesAdvance` | src/trading_research/indicators/ict.py:114-196 | a zone's state only advances; its side, anchor and level never change; once FULL nothing of it changes |
| `LiquidityLaws.ZonesSurviveExtension` | src/trading_research/indicators/ict.py:114-196 | for every extension of the candle series each zone is still there, advanced or the same, and FULL zones are frozen |
| `LiquidityLaws.MachineIsCausal` | src/trading_research/indicators/ict.py:114-196 | what is known after the first bars does not depend on later ones |
| `LiquidityLaws.ClusterFits` | src/trading_research/indicators/ict.py:150-169 | points within the margin of one level lie strictly inside the zone around their centre |
| `LiquidityLaws.ZoneMeaning` | src/trading_research/indicators/ict.py:114-196 | every zone has lower below upper around at least `minimum` different pivots of its side; FULL exactly at the first close strictly through it, with that bar's extreme as swept; ACTIVE only while no close entered; a PARTIAL zone known later than the bar after its event is known at the first close that entered |
| `LiquidityKnowledge.FullOpposes` | src/trading_research/indicators/ict.py:185-194 | a FULL zone carries the level of the newest zone of the other side at the bar it is known from, or none if there was none |
| `LiquidityKnowledge.OpposingLevelMeans` | src/trading_research/indicators/ict.py:191-192 | which zone of the other side that is: the one with only zones of this side before it in the list, newest first |
| `LiquidityKnowledge.PartialKnown` | src/trading_research/indicators/ict.py:150-195 | a PARTIAL zone is known at the first close that entered it if and only if the bar it is known from did not re-centre it while PARTIAL and close outside the new bounds |
| `RecentringInstance.RecentredAwayInstance` | src/trading_research/indicators/ict.py:114-196 | a series of thirteen bars, with the least configurable widths, in which a zone is entered at one bar and known from the next |
| `MarketStructure.BothSelected` | src/trading_research/indicators/ict.py:309-320 | on an alternating list of three or more points both structure points exist and are the second and third |
| `MarketStructure.Judge` | src/trading_research/indicators/ict.py:341-368 | one close against the remembered trend and levels, equal to the rule on the events so far |
| `MarketStructure.MarketEvents` | src/trading_research/indicators/ict.py:323-369 | the loop gives the events of the rule at every bar |
| `MarketStructure.EventsExact` | src/trading_research/indicators/ict.py:341-368 | a bar has an event if and only if its close breaks a selected point against the trend, or along the trend at a level that neither the latest shift nor the latest break used |
| `StructureOutcomes.StructureOutcome` | src/trading_research/indicators/ict.py:309-369 | the events of every bar from the list of points after it: of its second and third newest points the high and the low, and a close strictly beyond one of them against the trend, or along it at an unused level |
| `MarketStructure.StreamGrammar` | src/trading_research/indicators/ict.py:323-369 | an event is a shift exactly if it goes against the trend; a break has a level other than the latest shift's and break's of its direction; at most one event a bar, each a close strictly beyond the level of a zigzag point |
| `MarketStructure.ShiftsAlternate` | src/trading_research/indicators/ict.py:343-350 | consecutive shifts have opposite directions |
| `MarketStructure.RunDirection` | src/trading_research/indicators/ict.py:351-368 | breaks take the direction of the shift before them |
| `MarketStructure.EventsOfPrefix` | src/trading_research/indicators/ict.py:323-369 | the events of the first n candles are exactly the full series' events known before n |
| `Swings.NextLeg` | src/trading_research/indicators/smc.py:63-70 | the leg after a bar, from the extremes of the bars after the candidate |
| `Swings.Test` | src/trading_research/indicators/smc.py:110-118 | a pivot object is broken exactly at the first strict crossing since its confirmation, and remembers it |
| `Swings.OneBreak` | src/trading_research/indicators/smc.py:110-149 | no bar breaks both pivots |
| `Swings.SwingEvents` | src/trading_research/indicators/smc.py:51-150 | the loop with mutable pivots gives the declared stream |
| `SwingLaws.EventsExact` | src/trading_research/indicators/smc.py:51-150 | the stream reports every turn of the leg and every first crossing of the latest pivot of a kind, and nothing else |
| `SwingOutcomes.SwingsOutcome` | src/trading_research/indicators/smc.py:51-150 | legs, turns and events in plain terms: the candidate against the highs and lows of the `size` bars after it, what each turn is named, and from nothing the events of each bar |
| `SwingOutcomes.BreakOutcome` | src/trading_research/indicators/smc.py:110-149 | a pivot is broken at a bar if and only if it is the latest of its kind and this is the first close since to cross it from not beyond to beyond |
| `SwingLaws.SwingGrammar` | src/trading_research/indicators/smc.py:51-150 | confirmed pivots alternate, starting with a low, and are named against the last of their kind; each pivot is broken at most once; a break is CHoCH exactly if the break before it went the other way |
| `SwingLaws.TurnIsReported` | src/trading_research/indicators/smc.py:71-108 | each confirmed pivot appears right after what was known before its bar |
| `SwingLaws.SwingEventsOfPrefix` | src/trading_research/indicators/smc.py:51-150 | the swing events of the first n candles are exactly the full series' events known before n |
| `EqualLevels.FindEqualEvents` | src/trading_research/indicators/smc.py:240-294 | the loop over turns, with and without enough bars |
| `EqualLevels.EqualEventsExact` | src/trading_research/indicators/smc.py:248-294 | an equal high or low is reported if and only if a confirmed pivot lies strictly within the margin of the previous one of its kind; in order, at most one a bar |
| `EqualOutcomes.EqualsOutcome` | src/trading_research/indicators/smc.py:240-294 | the equal highs and lows of a series from its bars: exactly the turns less than the fraction of the average of two hundred ranges from the last turn of their kind |
| `EqualLevels.EqualsAreSwings` | src/trading_research/indicators/smc.py:240-294 | with equal sizes every equal high or low coincides with a swing pivot and names the level of the previous swing pivot of its kind |
| `EqualLevels.EqualEventsOfPrefix` | src/trading_research/indicators/smc.py:240-294 | the equal highs and lows of the first n candles are exactly those of the full series known before n |
| `OrderBlocks.ParsedExtremes` | src/trading_research/indicators/smc.py:395-416 | high and low of each bar, exchanged where its range is at least twice the volatility measure |
| `OrderBlocks.ExchangedIfVolatile` | src/trading_research/indicators/smc.py:413-414 | a block has its upper bound below its lower bound if and only if the bar it comes from is volatile |
| `OrderBlocks.BirthMeaning` | src/trading_research/indicators/smc.py:450-475 | a block is born exactly at a break, from the first extreme parsed bar between the pivot and the break; at most one a bar |
| `OrderBlocks.Prune` | src/trading_research/indicators/smc.py:477-486 | mitigated blocks go, then the oldest beyond the maximum |
| `OrderBlocks.BlockOf` | src/trading_research/indicators/smc.py:458-475 | the source is the first minimum or maximum of the parsed bars from the pivot up to the break |
| `OrderBlocks.ActiveOrderBlocks` | src/trading_research/indicators/smc.py:419-487 | the loop with copied pivot objects gives the declared list |
| `OrderBlocks.ActiveExact` | src/trading_research/indicators/smc.py:476-487 | for any births dated by their bar, the list holds exactly the blocks that no candle from their break on mitigated and that never had `maximum_blocks` younger live blocks; at most that many, with strictly decreasing break index |
| `OrderBlockLaws.ActiveBlocksExact` | src/trading_research/indicators/smc.py:419-487 | the same for the blocks of every series and all settings, without a further condition |
| `OrderBlockOutcomes.BlocksOutcome` | src/trading_research/indicators/smc.py:395-487 | the active blocks of a series from its bars: volatility measures, exchanged extremes, the block of each break with its source bar and bounds, and which are still held, newest first |
| `OrderBlockLaws.ActiveOfPrefix` | src/trading_research/indicators/smc.py:419-487 | the blocks of the first n candles are exactly those active in the full series after n bars |
| `OrderBlockLaws.ExchangedInstance` | src/trading_research/indicators/smc.py:395-475 | a series of twelve bars with a block whose upper bound lies below its lower bound |
| `Resampling.GroupByBucket` | src/trading_research/application/resampling.py:93-100 | each bucket holds the candles of its aligned window that are closed by the evaluation |
| `Resampling.CompleteGroup` | src/trading_research/application/resampling.py:103-110 | a bucket passes the completeness test if and only if all of its minutes are there |
| `Resampling.ResampleComplete` | src/trading_research/application/resampling.py:52-128 | refused exactly for what the series or the timeframe violates; otherwise there is one bar for each aligned window wholly in the closed data, in order, each with the open of its first candle, the close of its last, a high and a low that one of its candles reaches and none passes, the sum of base volumes, and that of quote volumes or none exactly if one is missing |
| `Resampling.ResampleRoles` | src/trading_research/application/resampling.py:131-151 | each role gets the series of its own timeframe, equal timeframes resampled once |
| `Resampling.ResampledOutcome` | src/trading_research/application/resampling.py:93-128 | the same of the series the other results speak of: which windows have a bar, and each bar from its own candles |
| `Replay.BisectRight` | src/trading_research/application/backtesting.py:204-206 | the insertion point to the right |
| `Replay.Prefix` | src/trading_research/application/backtesting.py:195-207 | the slice is in order, in the series one after the other, and holds exactly the bars whose close lies at or after the window's start and at or before the evaluation |
| `Replay.ReplayIsLive` | src/trading_research/application/backtesting.py:195-207 | a replay slice is the live engine's series of the same window, preceded by at most one bar, that of the bucket straddling the window's start |
| `Replay.ReplayEqualsLive` | src/trading_research/application/runtime.py:293-302 | slice and live series are equal if and only if the window's start is aligned to the timeframe, or its bucket begins before the data, or that bucket ends after the evaluation |
| `Replay.StraddlerExists` | src/trading_research/application/backtesting.py:195-207 | the extra bar exists if and only if the window's first bucket began inside the data before the window and closes by the evaluation |
| `Replay.StraddlerInstance` | src/trading_research/application/backtesting.py:195-207 | ten minutes of data for which the slice of five-minute bars is not the live series |
| `Replay.ClosedCandles` | src/trading_research/indicators/base.py:40-64 | a series is accepted if and only if every bar has the instrument and the timeframe, each begins a millisecond after the one before it closes, and none closes after the evaluation |
| `Replay.ReplayAcceptable` | src/trading_research/indicators/base.py:51-63 | every replay slice is accepted |
| `Replay.LiveAcceptable` | src/trading_research/indicators/base.py:51-63 | every live series is accepted |
| `Replay.Resolve` | src/trading_research/application/backtesting.py:51-61 | the loaded range ends with the period and begins exactly the configured history before it; refused exactly if the history is not positive or reaches back before the epoch |
| `Replay.ScheduledWindow` | src/trading_research/application/backtesting.py:162-167 | every scheduled evaluation has its whole history window inside the loaded data |
| `Replay.ScheduleOutcome` | src/trading_research/application/backtesting.py:162-167 | the schedule holds the closes, in order, of exactly the bars that open at or after the period's start and close before the minute after its end is over |
| `Replay.EveryEvaluation` | src/trading_research/application/backtesting.py:144-207 | at every evaluation scheduled by the first instrument, for every instrument and every role: the slice is the live series after at most one bar, and both are accepted |
| `Replay.LiveIsResampled` | src/trading_research/application/runtime.py:294-302 | resampling the candles of the live window by the evaluation gives the live series the other results speak of |
| `Replay.SeriesIsResampled` | src/trading_research/application/backtesting.py:159 | resampling all candles gives the series the replay slices |
| `Replay.SomeLiveBar` | src/trading_research/application/runtime.py:294-302 | the live series has a bar if and only if the first bucket that begins inside the window has closed by the evaluation |
| `Parity.SameView` | src/trading_research/application/backtesting.py:175-181 | a plugin can learn the same from the replay context and from the live one if and only if each role's window starts on a boundary, or cuts a bucket begun before the data, and its first bucket has closed |
| `Parity.ReplayDecidesAsLive` | src/trading_research/application/backtesting.py:175-181 | where every role agrees, for arbitrary plugins: the same observations or the same node stopping for the same reason, and the same verdict |
| `Parity.EmptyRoleDiffers` | src/trading_research/indicators/base.py:25-37 | where a role has no bar in either context, its timeframe is known to the live one alone |
| `Parity.EmptyRoleInstance` | src/trading_research/indicators/base.py:25-37 | a role of one hour in a window of ten minutes |
| `IndicatorGraph.TopologicalOrder` | src/trading_research/application/graph.py:152-185 | refused as duplicate, unknown plugin, missing dependency or cyclic exactly if that is the first that applies; otherwise the nodes in layers, each layer by order and id |
| `IndicatorGraph.OrderIsTopological` | src/trading_research/application/graph.py:170-185 | a successful order has each node exactly once and every dependency earlier |
| `IndicatorGraph.OrderIffAcyclic` | src/trading_research/application/graph.py:170-185 | with distinct ids and no dependency missing the sort succeeds if and only if no walk along dependencies returns to its beginning |
| `IndicatorGraph.OrderingOutcome` | src/trading_research/application/graph.py:152-185 | each refusal exactly when, from the nodes alone; and an order is the nodes layer by layer, a node in the first layer that has all its dependencies before it, and in a layer by order and id |
| `IndicatorGraph.OrderedIsAcyclic` | src/trading_research/application/graph.py:170-185 | a list with every dependency earlier has no cycle |
| `IndicatorGraph.FailureHasCycle` | src/trading_research/application/graph.py:177-181 | when no remaining node is ready, there is a cycle |
| `IndicatorGraph.OrderIndependent` | src/trading_research/application/graph.py:175-180 | the result does not depend on the order in which nodes are given |
| `IndicatorGraph.Execute` | src/trading_research/application/graph.py:187-218 | one observation per node, made from exactly those of its dependencies and knowing nothing later than the evaluation; no lookup fails; on failure everything before it was observed, and which check failed first is told |
| `IndicatorGraph.FirstMismatch` | src/trading_research/application/graph.py:202-216 | an observation is refused for the first respect, in the order of the checks, in which it differs from its node or context, and for no other |
| `IndicatorGraph.ViewOutcome` | src/trading_research/indicators/base.py:25-37 | what a plugin can learn of a role's timeframe: the configured one, or that of its bars if they have one in common |
| `IndicatorGraph.ExecutionDetermined` | src/trading_research/application/graph.py:187-218 | two contexts from which plugins can learn the same give the same observations, or stop at the same node for the same reason |
| `NotificationQueue.Channel.constructor` | src/trading_research/application/notifications.py:36-51 | a destination starts with an empty queue, nothing asked of its adapter, and the deliveries already in the store |
| `NotificationQueue.Channel.HandOver` | src/trading_research/application/notifications.py:152-186 | a batch goes to the adapter whole or one by one, each call answered by it; what returned is handed over, the rest is dropped exactly if the adapter raised, and a call's events are recorded exactly if it succeeded and its recording worked, which without a store is always |
| `NotificationQueue.Channel.HandEach` | src/trading_research/application/notifications.py:157-170 | one call for each event in order, up to the first that raises; the same account of what was taken, succeeded and recorded |
| `NotificationQueue.Channel.Flush` | src/trading_research/application/notifications.py:131-201 | an empty queue asks nothing; any other is settled whole in one record at one clock reading: its duplicates are left out, the rest is handed over or dropped, the recorded successes and no others enter the book; the queue and its deadline are cleared |
| `NotificationQueue.Channel.DeliverNow` | src/trading_research/application/notifications.py:212-249 | one event is settled at once by one call, and recorded exactly if that succeeded and the recording worked, or left out exactly if its key was recorded within the window |
| `NotificationQueue.Channel.Offer` | src/trading_research/application/notifications.py:87-113 | a matching event is left out exactly if it is a duplicate; otherwise it joins the queue, which is flushed before exactly if the deadline has come or the run or bar changes, and after exactly if it has reached its bound; the first event sets the deadline; each reading of the clock is told |
| `NotificationQueue.Channel.Announce` | src/trading_research/application/notifications.py:81-86 | a run event flushes the queue first, if there is one, and is then settled on its own |
| `NotificationQueue.OfferOne` | src/trading_research/application/notifications.py:78-113 | one event: nothing if it does not match, the transition of a run event, or that of the queue |
| `NotificationQueue.OfferAll` | src/trading_research/application/notifications.py:78-113 | over all events of a call these transitions one after the other; exactly the matching events arrive, in order |
| `NotificationSteps.StepsServe` | src/trading_research/application/notifications.py:78-113 | whatever the transitions do, exactly the matching events arrive in order, and what was settled stays settled |
| `NotificationOutcomes.StepsOutcome` | src/trading_research/application/notifications.py:70-113 | what a destination does with the events of a call, one after the other: nothing to one that does not match, and otherwise, from queue, deadline and clock readings alone, what is sent in which calls, left out, queued and recorded, and what stays |
| `NotificationOutcomes.FlushOutcome` | src/trading_research/application/notifications.py:131-201 | a flush of the queue in the same terms |
| `NotificationRouting.NotificationRouter.DeliverAll` | src/trading_research/application/notifications.py:70-116 | one destination after the other takes all events by these transitions, between the clock readings told; a disabled router changes nothing |
| `NotificationRouting.NotificationRouter.Close` | src/trading_research/application/notifications.py:118-125 | one destination after the other is flushed if it has anything queued; afterwards none has |
| `NotificationLedger.Sent` | src/trading_research/application/notifications.py:131-201 | after a flush every event that arrived is still accounted for once: handed over, left out, dropped or queued; order of arrival kept |
| `NotificationLedger.Queued` | src/trading_research/application/notifications.py:103-111 | the same after an event is queued |
| `NotificationLedger.LeftOutNow` | src/trading_research/application/notifications.py:88-99 | the same after a duplicate is left out |
| `NotificationLedger.DeliveredNow` | src/trading_research/application/notifications.py:212-249 | the same after a direct delivery |
| `NotificationLedger.DeliveredMeaning` | src/trading_research/application/notifications.py:290-335 | the dictionary or the store gives for each key, and in the store for each run, exactly the time a success was last recorded, by this router or before it started |
| `NotificationLedger.DuplicateMeans` | src/trading_research/adapters/persistence/sqlite.py:753-765 | an event is a duplicate if and only if some run, of this router or before it, last recorded its key less than a window ago |
| `NotificationLedger.ProperAt` | src/trading_research/application/notifications.py:131-201 | whichever recordings of successes fail, every attempt of a history was within the bound, of one boundary, with nothing recorded within the window before, even by an earlier router; it left out only what was, dropped something exactly when the adapter raised, and recorded exactly the successes whose recording worked |
| `NotificationLedger.NothingLost` | src/trading_research/application/notifications.py:70-125 | where the adapter never raised, the events that arrived are exactly those handed over, left out and still queued |
| `NotificationSteps.TwiceHandedOver` | src/trading_research/application/notifications.py:139-185 | a flush whose adapter does not raise hands over two events of one key if and only if the queue held two whose key was not recorded within the window |
| `NotificationSteps.TwiceInstance` | src/trading_research/application/notifications.py:131-185 | two equal events queued and both delivered by one call |
| `NotificationAdapter.ReflectsMore` | src/trading_research/application/notifications.py:152-186 | the calls in the account go on being exactly those the adapter was given |
| `NotificationWindow.RecordedShutsOut` | src/trading_research/application/notifications.py:212-222 | while the last record that delivered a key is less than a window old, and its recording worked, nothing of that key is handed over under any run |
| `NotificationWindow.DeliveriesAreSpaced` | src/trading_research/application/notifications.py:212-222 | on records in order of time, two deliveries of one key lie at least a window apart if recording the first worked |
| `NotificationWindow.LifeInTime` | src/trading_research/application/notifications.py:70-125 | over every run of calls with a clock that never goes back, records are in order of time and none is later than the next reading |
| `NotificationWindow.OncePerWindow` | src/trading_research/application/notifications.py:70-125 | over every run of calls with a clock that never goes back, a key whose delivery was recorded is not handed over again before a window has passed |
| `NotificationWindow.DictionaryRecordsAll` | src/trading_research/application/notifications.py:323-335 | without a store every success is recorded |
| `Metrics.MaximumDrawdown` | src/trading_research/application/metrics.py:147-155 | the one pass gives the greatest fall of the running total from an earlier to a later point, starting from zero |
| `Drawdown.DrawdownUnique` | src/trading_research/application/metrics.py:147-155 | that description determines the figure |
| `Metrics.CumulativeIsProfitLessLoss` | src/trading_research/application/metrics.py:109-131 | cumulative R is gross profit less gross loss |
| `Metrics.DrawdownWithinLoss` | src/trading_research/application/metrics.py:147-155 | the drawdown lies between zero and the gross loss |
| `Metrics.Summarize` | src/trading_research/application/metrics.py:109-144 | all figures of one group of trades: totals, rates, median, drawdown, and the counts by status and by exit reason |
| `MetricsOutcomes.FiguresOutcome` | src/trading_research/application/metrics.py:109-144 | each figure from the trades in plain arithmetic: counts, win rate, mean, median, gross profit and loss, their quotient, cumulative R, the greatest fall and costs; none exactly where the divisor is zero |
| `MetricsOutcomes.CountsOutcome` | src/trading_research/application/metrics.py:142-143 | a count is the number of trades of its key, in order of keys; every key that occurs is listed |
| `MetricsOutcomes.KeysMean` | src/trading_research/application/metrics.py:73-84 | which status, exit reason and direction each key stands for, in the order of their names |
| `Medians.MedianSplits` | src/trading_research/application/metrics.py:129 | at most half of the results lie below the median and at most half above |
| `Metrics.CountsAddUp` | src/trading_research/application/metrics.py:142-143 | the counts of the statuses, and of the exit reasons, that occur add up to the number of trades |
| `Metrics.SummarizeGroups` | src/trading_research/application/metrics.py:73-84 | one summary for each key that occurs, and for no other, ascending |
| `MetricsOutcomes.OfOutcome` | src/trading_research/application/metrics.py:76-84 | a group holds the trades of its key, exactly those and in order |
| `Metrics.SummarizeTrades` | src/trading_research/application/metrics.py:66-85 | the report over trades in order of signal time, then instrument, then hash, with ties in the given order |
| `Metrics.GroupsAddUp` | src/trading_research/application/metrics.py:76-84 | any total over all trades is the sum of the totals of its groups |
| `Metrics.ReportAddsUp` | src/trading_research/application/metrics.py:66-85 | counts, gross profit and loss, cumulative R and costs of the groups add up to the overall figures |
| `RiskLevels.PassMeans` | src/trading_research/indicators/risk.py:51-165 | PASS if and only if there are enough bars, the chain of evidence does not contradict itself, the composed levels are ordered by direction, the stop is not negative, and reward over risk reaches the minimum |
| `RiskLevels.FirstContradiction` | src/trading_research/indicators/risk.py:167-206 | the contradiction that is reported is the first in the order of the checks that applies to the evidence, and there is none exactly if none applies |
| `RiskLevels.LevelsOutcome` | src/trading_research/indicators/risk.py:101-116 | the levels: the middle of the gap, a tenth of the average of fourteen ranges beyond the swept extreme, away from the target, and the opposing level |
| `RiskLevels.GateOutcome` | src/trading_research/indicators/risk.py:71-165 | what the gate answers with how many bars, which contradiction, or which risk and reward, in every case |
| `RiskLevels.RefusedMeans` | src/trading_research/domain/observations.py:57-60 | the gate raises instead of observing if and only if comparable levels of a long trade swept an extreme below a tenth of the average range |
| `RiskLevels.NegativeStopRefused` | src/trading_research/indicators/risk.py:101-165 | fourteen bars and agreeing evidence, with a reward far above the minimum, for which the gate raises |
| `RiskLevels.PassRelies` | src/trading_research/indicators/risk.py:101-206 | on PASS the entry lies strictly inside the gap, the stop at or beyond the swept extreme, and the sweep was known strictly before the gap |
| `RiskLevels.RatioAgrees` | src/trading_research/indicators/risk.py:118-140 | the gate's reward over risk is the one the simulator's levels have |
| `DecisionPolicy.OrderedDecisionPlugin.Decide` | src/trading_research/application/decision_policy.py:43-112 | from the signals by order and id and the observations alone: NO_TRADE for the first signal that does not accept exactly if it was observed to fail, UNAVAILABLE for it exactly if it is missing, not available or passes without four texts, or for the levels exactly if all accept and none is read; otherwise READY with the texts of the last one read, or the constructor raises; the hashes of exactly the signals up to and including the one that stops it |
| `DecisionPolicy.OrderedDecisionPlugin.Compose` | src/trading_research/application/decision_policy.py:43-112 | the loop with early returns gives the declared verdict on raw payload texts and the hashes of the signals it consulted |
| `DecisionPolicy.RefusalsMean` | src/trading_research/application/decision_policy.py:54-112 | each refusal if and only if its cause: NO_TRADE names the first signal that does not accept if it was observed to fail, UNAVAILABLE one that is missing, not available or passes without four texts, or the levels where all accept and none is read |
| `DecisionPolicy.ReadyOutcome` | src/trading_research/application/decision_policy.py:92-102 | where all accept, the texts of the last signal read for levels are refused exactly if one is of another form, and are otherwise the levels |
| `DecisionPolicy.CarriesMeans` | src/trading_research/application/decision_policy.py:48-102 | levels are carried if and only if every signal accepts, and they are the texts of the last one read for levels |
| `DecisionPolicy.RaisesMeans` | src/trading_research/domain/decisions.py:29-35 | `decide` raises if and only if every signal accepts and the last one read for levels has a direction other than the two or a price that is not non-negative fixed-point text |
| `DecisionPolicy.RaisingInstances` | src/trading_research/domain/decisions.py:29-35 | a payload with another direction, and one with a price in scientific notation, for which it raises |
| `DecisionPolicy.GateIsNeverRefused` | src/trading_research/application/decision_policy.py:74-102 | texts of the risk gate's levels are never refused, and a READY decision carries exactly them |
| `DecisionPolicy.DecisionIndependent` | src/trading_research/application/decision_policy.py:40-41 | the decision does not depend on the order in which signals are configured |
| `DecisionPolicy.ReadyTradesPay` | src/trading_research/application/decision_policy.py:74-102 | when levels come from the risk gate, whatever the other signals are, prices are ordered by direction, a stop costs at least one R, a target earns at least the configured minimum, and net R is at most gross R |

## Left out

- Execution.NetIsGrossLessCosts: exact arithmetic; the rounding to 28 digits and the text form of amounts are not modelled.
- FairValueGaps.ActiveGaps: the imbalance of each bar is computed in a pass of its own before the loop over gaps, where the code does both in one loop; the values are the same.
- HistoricalSync.HistoricalRangeSyncService.SyncRange: vouches for the symbol only of rows it added, because the code does not check the rows already stored outside the missing runs.
- HistoricalSync: the loop over all instruments, its receipt and the data hash would only add easy members.
- NotificationQueue.Channel.Flush: receipts, outcome records and the routing outcome are not modelled, nor a store whose lookup raises; the per-destination dictionaries are the fields of one object per destination.
- NotificationQueue.Channel.HandOver: the adapter is part of the destination's object; its creation and caching are not modelled.
- NotificationQueue.Channel.DeliverNow: the routing of a single event outside the queue, which does not flush first, is modelled only where nothing is queued.
- IndicatorGraph.TopologicalOrder: the dictionary of remaining nodes is a sequence in insertion order.
- IndicatorGraph.Execute: a plugin is a pure function of its node, of what the context tells it of series and timeframes, and of its inputs.
- Resampling.ResampleComplete: the timeframe is its number of minutes; the names of timeframes are not modelled.
- Metrics.SummarizeTrades: the counts of decision statuses and of unavailable reasons, which concern evaluations and not trades, are not modelled.
- RiskLevels.PassMeans: starts from observations whose identity and required fields were already checked; the limit of 64 characters on a price text is not modelled.
- Replay.EveryEvaluation: hashes, traces and the loading of candles are not modelled.
- Plugin wrappers that only assemble an observation from the results above.
- Schema, migration, snapshots and transactions of the database beyond all-or-nothing page stores.
- Configuration parsing, reports, HTTP, webhooks, scheduling, processes and file locks.
