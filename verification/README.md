# Verification of the trading platform's deterministic engines

The platform decides in code that is small but unforgiving: which candles form a pivot, when a
silent operator's plan runs, which trade the kernel lets through, what a cut-off frame turns
into. Each of those components is modelled here with the source's own branches and edge cases,
and what it keeps is proved for every input and every run.

| engine | files |
|---|---|
| market structure reader: ticks to candles, zigzag pivots, classifier | `CandleAggregator`, `TrueRange`, `Zigzag`, `Median`, `MarketContext`, `ContextReading`, `CoilReachable`, `ContextEngine` |
| dead-man switch: timed escalation of a registered plan | `DeadMan`, `DeadManRuns`, `DeadManBounds` |
| pullback lifecycle tracker | `Pullback`, `PullbackPrices` |
| Iron Constitution kernel: risk gate, recovery machine, voter, request dispatch | `RiskGate`, `Kernel`, `Voter`, `ClosedLoop`, `Ipc` |
| framed byte protocol over short reads | `Framing`, `FramedIo`, `Client`, `SharedKernel` |
| quorum ledger: one node, and a network of them | `Mesh`, `MeshNetwork` |
| one-pass statistics: next-candle learner, streaks, shadow drawdown | `NextCandle`, `LearnerReading`, `Streaks`, `Drawdown` |

How the model is built:

- A source class is a Dafny class with its fields. Its methods are proved to do what a function
  on values says, and the theorems are about that function over arbitrary runs. Loops in the
  source are loops here, proved against declarative definitions (a confirmed swing, a maximal
  run of ticks, a set of positions, a maximum over all pairs).
- What the functions compute is pinned by a second, independent reading: the classifier's labels in
  raw candles and pivots, the dead-man switch in times and orders, the tracker in prices, the gate
  in amounts, the learner's features in candles, quorums as majorities.
- Floats are exact reals and never NaN or infinite; times and durations are reals. `u64`
  counters saturate at 2^64 - 1 and the 4-byte frame length is written out byte by byte.
- Clocks, hooks, oracles, parsing, float printing, model fitting and random draws are
  parameters: a time passed in, an outcome that returns or raises, an opaque function, an
  arbitrary list.
- Locks make each call one atomic step. Concurrency is modelled as arbitrary interleavings of
  those steps (connections on one kernel, proposals and messages between nodes).
- Some source functions are split into several methods here, each branch with its own
  contract; the order of their effects is the source's.

Properties that one might expect but that do not hold, and what holds instead:

- **Liveness of the dead-man switch** needs a non-empty plan, escalation enabled and a first
  beat ever received; `DormantIff` shows that these are exactly the conditions.
- **docs/DOOMSDAY.md:46** lets LIQUIDATING re-arm and docs/DOOMSDAY.md:76-82 lets a failed
  step continue. In the code LIQUIDATING never re-arms, and a step that raises ends the plan in
  LIQUIDATING, for good (`RaisedStepEndsThePlan`). `ReturnIff` says exactly when beats can still
  re-arm the switch.
- **docs/PRD.md:59** says that SoftDeleveraging rejects new positions. In the code a proposal is
  locked out only while recoveries are owed; otherwise the gate's verdict stands, in
  SoftDeleveraging too (`ProcessIff`). `SoftDeleveragingApproves` is a run that shows it.
- **Coils.** RANGE / COIL is live code exactly when `range_height_atr > swing_atr_multiple`
  (`CoilIff`): then some ticks lead there, otherwise no candles at all do. It is dead with the
  default parameters (`CoilLabelsUnreachable`).
- **A stream that ends inside a frame** is not detected by the daemon: `CutStream` says what it
  handles instead, and `ExactIffWhole` when it handles exactly what was sent. A stream that
  breaks is safe (`BrokenStream`).
- **The client** reads its header with one `recv` and fails exactly on a short one (`Exchange`,
  `OneByteHeader`).
- **Quorum is not agreement.** Two quorums share a voter, but voters do not remember
  (`ContendedKeysDisagree`). `AgreementIff` says exactly when deliveries can no longer leave
  ledgers apart, and `UncontendedKeysSettle` that uncontended keys are always in that case.
- **One node, one vote** holds in every round exactly when the node is not itself among the
  peers it asks (`OneNodeOneVote`, `SelfPeerDoubleVote`).

## Model

| member | source | states |
|---|---|---|
| CandleAggregation.BucketIsFloor | cortex/cortex/market_context.py:107-108 | A tick's bucket is the one multiple of the timeframe that its time lies in |
| CandleAggregation.RunsAreRuns | cortex/cortex/market_context.py:110-138 | Grouping ticks one by one gives maximal runs that share a bucket: none can be extended, none is split |
| CandleAggregation.IsRunsUnique | cortex/cortex/market_context.py:110-138 | A tick list has exactly one such grouping |
| CandleAggregation.ClosedAt | cortex/cortex/market_context.py:122-131 | Closed candle i is run i's first, max, min, last and count, opened at its bucket and closed at the next run's |
| CandleAggregation.ExtremaBound | cortex/cortex/market_context.py:134-137 | A run's high and low are attained bounds of its prices |
| CandleAggregation.CandleSummarizesRun | cortex/cortex/market_context.py:110-138 | Closed candle i against run i in raw ticks: first and last price, attained bounds, number of ticks, both times |
| CandleAggregation.ClosedCandlesWellFormed | cortex/cortex/market_context.py:110-138 | Every closed candle has a positive low and keeps open and close between low and high |
| CandleAggregation.EveryHistoryHasTicks | cortex/cortex/market_context.py:107-138 | And nothing more: every list of such candles is, price for price, what the aggregator closes on some ticks |
| CandleAggregation.VolumeIsConserved | cortex/cortex/market_context.py:137-137 | Volume of the closed candles plus the size of the open run equals the ticks accepted |
| CandleAggregation.CandleAggregator.Feed | cortex/cortex/market_context.py:110-138 | A non-positive price changes nothing; any other tick is appended, and the candle returned is exactly the one by which the closed runs grew |
| CandleAggregation.CandleAggregator.Forming | cortex/cortex/market_context.py:140-157 | The unclosed candle, stamped with the observation time, iff that time lies in the last tick's bucket |
| TrueRange.AtrIsLocal | cortex/cortex/market_context.py:160-179 | The ATR of any tail longer than the period equals the ATR of the whole history |
| TrueRange.AtrOf | cortex/cortex/market_context.py:160-179 | The loop over the trailing window computes the mean of the last `period` true ranges of the history |
| TrueRange.AtrOfAll | cortex/cortex/ml.py:30-39 | The loop over all candles computes the same mean |
| TrueRange.RangeIsExtent | cortex/cortex/market_context.py:160-179 | A true range is the extent of the candle together with the close before it, so a gap counts on either side |
| TrueRange.AtrTotal | cortex/cortex/market_context.py:160-179 | The ATR times the number of ranges covered is their sum: all of them in a short history, the last `period` in a longer one |
| TrueRange.TotalSlides | cortex/cortex/market_context.py:160-179 | One more candle adds its true range to that sum and, once the window is full, takes off the oldest |
| TrueRange.AtrOfEqual | cortex/cortex/market_context.py:160-179 | Candles of equal true range have that range as their ATR |
| Zigzag.ZigzagSwings | cortex/cortex/market_context.py:182-207 | The one-pass loop returns the zigzag: each swing the earliest confirmed one after its predecessor, nothing confirmed after the last |
| Zigzag.SwingsIsZigzag | cortex/cortex/market_context.py:182-207 | Every candle list has a zigzag |
| Zigzag.IsZigzagUnique | cortex/cortex/market_context.py:182-207 | It has only one |
| Zigzag.SwingsAlternate | cortex/cortex/market_context.py:182-207 | Swings alternate High and Low, neighbours are at least the reversal apart on the right side, and only a Low may share its predecessor's candle |
| Zigzag.SwingPriceIsExact | cortex/cortex/market_context.py:189-206 | A swing's price is the attained extremum from the previous swing's confirming candle to its own |
| Zigzag.NoEarlierReversal | cortex/cortex/market_context.py:192-206 | Between confirmations and after the last one, no two candles show a reversal in an open direction |
| Zigzag.SwingsNeverRepaint | cortex/cortex/market_context.py:182-207 | For a fixed reversal, the swings of the first n candles are exactly the swings of the history that those candles confirm |
| Zigzag.ExtremaAreExact | cortex/cortex/market_context.py:190-201 | The running extrema are attained bounds of the candles since the last swing |
| Zigzag.FirstSwing | cortex/cortex/market_context.py:189-206 | The first swing is a High iff its candle completes a drop, also when it completes a rise |
| Zigzag.FlatMarketHasNoSwings | cortex/cortex/market_context.py:182-207 | A market that does not move has no swings, whatever the ATR: the reversal is never 0 |
| MarketContext.LastPair | cortex/cortex/market_context.py:260-263 | Of the last two swings one is the last High, the other the last Low, and they are a reversal apart |
| MarketContext.CoilNeedsWideBand | cortex/cortex/market_context.py:265-271 | A history can be coiled only if range_height_atr exceeds swing_atr_multiple |
| MarketContext.CoilLabelsUnreachable | cortex/cortex/market_context.py:280-335 | With the defaults, and whenever the band is not wider than the reversal: no coil bounds, no RANGE or COIL, EXPANSION only from an impulse bar |
| MarketContext.BandIsExact | cortex/cortex/market_context.py:265-271 | The band's edges are attained bounds of the recent pivot prices |
| MarketContext.SnapshotIsDetermined | cortex/cortex/market_context.py:235-339 | The description that build_context is proved against leaves no field open, the two anticipations included |
| MarketContext.CycleIsNonNegative | cortex/cortex/market_context.py:227-232 | The median time between the last six swings exists iff there are three swings, and is never negative |
| Median.SortedIsExact | cortex/cortex/market_context.py:227-232 | The median is taken from an ordered permutation of the gaps |
| Median.MedianSplits | cortex/cortex/market_context.py:227-232 | In order, the lower half of the gaps is at most the median and the upper half at least; it is the mean of the two middle ones, or the middle one |
| MarketContext.RecentBandIsOrdered | cortex/cortex/market_context.py:265-271 | With enough swings the recent low is strictly below the recent high |
| MarketContext.BuildContext | cortex/cortex/market_context.py:235-339 | The branches as written meet a description of the snapshot: regime, phase, bias, momentum, band, coil, age, anticipated candles, and integrity lost exactly when the last close violates the structure in force. `SnapshotReads` below says what that is in candles and pivots |
| ContextReading.SnapshotReads | cortex/cortex/market_context.py:235-339 | Every such snapshot is the one an independent reference reads off raw candles and confirmed pivots, field by field: the impulse, the broken coil, the two trends with reference level, exhaustion, age and integrity, the range, the seeding cases |
| ContextReading.RisingPivotsTrendUp | cortex/cortex/market_context.py:216-304 | The last High and the last Low both above the one before: TREND_UP and Long, in every snapshot of structure that has not left its coil |
| ContextReading.FallingPivotsTrendDown | cortex/cortex/market_context.py:216-304 | Both below: TREND_DOWN and Short |
| ContextReading.StairsTrend | cortex/cortex/market_context.py:182-335 | Every long enough rising staircase of candles reads as TREND_UP / Long, every falling one as TREND_DOWN / Short |
| ContextReading.PolarityIsTrend | cortex/cortex/market_context.py:210-224 | The score over the last eight swings is positive iff more of the last two swings rise than fall, each against the one before it of its kind, and negative iff more fall |
| ContextReading.BandIsWindow | cortex/cortex/market_context.py:260-271 | The band is attained by, and bounds, exactly the pivots among the last lookback ones, an odd lookback rounded up |
| MarketContext.Classify | cortex/cortex/market_context.py:265-339 | The same for the part that runs once the swings suffice |
| CoilReachable.CoilIff | cortex/cortex/market_context.py:110-335 | For some ticks the closed candles read as RANGE / COIL, in every snapshot that describes them, iff range_height_atr exceeds swing_atr_multiple; over arbitrary candle lists the condition is the same |
| CoilReachable.CoilIsReachable | cortex/cortex/market_context.py:182-335 | Well-formed candles that do, for all valid parameters with a band wider than the reversal, whatever the ATR period, min_swings and lookback |
| CoilReachable.LevelsReadAsRange | cortex/cortex/market_context.py:260-335 | Enough pivots at two levels closer than the coil width, and a close that rests between them, read as RANGE / COIL |
| CoilReachable.CoilingSwings | cortex/cortex/market_context.py:182-207 | In that history every tall candle confirms a High and a Low, and all pivots lie at the two levels, the wick's included |
| CoilReachable.WickSetsAtr | cortex/cortex/market_context.py:160-179 | One wick after candles without extent sets the ATR |
| CoilReachable.SameReading | cortex/cortex/market_context.py:160-335 | Whether a history reads as RANGE / COIL depends on its prices only, not on times or volumes |
| ContextEngine.MarketContextEngine.Ingest | cortex/cortex/market_context.py:352-364 | A missing price rejects the tick, a missing time is the time of arrival, a null time raises and changes nothing; a report is returned iff a candle closes, and is that of the retained history, exactly the last max_candles closed candles, as the reference reads it |
| ContextEngine.MarketContextEngine.Snapshot | cortex/cortex/market_context.py:366-390 | At any time the dictionary gives the labels and levels of the snapshot exactly, and its derived quantities rounded to eight, six and two decimals, the even one on a tie |
| ContextEngine.MarketContextEngine.Remember | cortex/cortex/market_context.py:360-362 | Appending and trimming keeps the longest allowed suffix |
| DeadMan.SchemaBoundsSuffice | doomsday/doomsday/config.py:26-44 | The schema's bounds give the periods the timing theorems need |
| DeadMan.DeadManSwitch.EmitBeat | doomsday/doomsday/daemon.py:73-80 | A beat does what its function says, and is refused iff unsigned in strict mode |
| DeadMan.DeadManSwitch.GovernanceDisarm | doomsday/doomsday/daemon.py:82-90 | Disarming does what its function says, and is refused iff the key is unset or wrong; in LIQUIDATING it clears the grace clock only |
| DeadMan.DeadManSwitch.MoveTo | doomsday/doomsday/daemon.py:92-98 | Moves and journals exactly the transitions of the table |
| DeadMan.DeadManSwitch.ExecuteStep | doomsday/doomsday/daemon.py:109-126 | An attempted step leaves its notes and its order, also when its hook raises |
| DeadMan.DeadManSwitch.RunPlan | doomsday/doomsday/daemon.py:161-175 | The plan loop catches up step by step and stops at the first step that raises |
| DeadMan.DeadManSwitch.TickNow | doomsday/doomsday/daemon.py:128-192 | A tick does what its function says in every state; `TickMoves`, `TickKeeps` and `DueStepsAreAttempted` say what that is in times and orders |
| DeadManRuns.RunInv | doomsday/doomsday/daemon.py:73-192 | Every event keeps the run invariant: linked journal, attempts in order and on time, standing of each state |
| DeadManRuns.PlanExecution | doomsday/doomsday/daemon.py:153-175 | In an episode the steps attempted are plan[0..k), once each, in order, each no earlier than its due time; LIQUIDATING and DORMANT mean that the plan is complete or its last attempt raised |
| DeadManRuns.AttemptsOnlyGrow | doomsday/doomsday/daemon.py:153-175 | Within an episode attempts are only appended, only by ticks, at the tick's own time |
| DeadManRuns.OrdersAreAttempts | doomsday/doomsday/daemon.py:106-126 | Exactly once in its effects: orders placed since the plan was armed equal the acquisition steps attempted whose oracle did not raise |
| DeadManRuns.StepNoIsDue | doomsday/doomsday/daemon.py:158-160 | Step i falls due exactly at grace + i periods after the last beat |
| DeadManRuns.CommittedStays | doomsday/doomsday/daemon.py:103-104 | Past the abort threshold no beats and ticks lead back |
| DeadManRuns.ReturnIff | doomsday/doomsday/daemon.py:154-157 | From any time on, some beats and ticks in order of time re-arm the switch iff it has not passed the abort threshold |
| DeadManRuns.RaisedStepEndsThePlan | doomsday/doomsday/daemon.py:161-175 | For every configuration with two steps or more, a run whose first step raises: LIQUIDATING with one step attempted, and no beats and ticks lead back or attempt another |
| DeadManRuns.JournalIsChain | doomsday/doomsday/daemon.py:29-35 | The journal kept is a chain of allowed transitions and notes that ends in the current state |
| DeadManRuns.DormantAfterDeadline | doomsday/doomsday/daemon.py:128-192 | From any reachable state a silent system is DORMANT after every tick later than the deadline plus four gaps, whether or not steps raise |
| DeadManRuns.DormantByBound | doomsday/doomsday/daemon.py:128-192 | It went DORMANT by grace * (1 + liquidation multiplier) + n periods + 5 gaps |
| DeadManRuns.DormantIff | doomsday/doomsday/daemon.py:136-163 | A silent system goes DORMANT iff escalation is enabled, the plan is not empty and a beat was ever received |
| DeadManBounds.TickMoves | doomsday/doomsday/daemon.py:128-192 | Where a tick leads, exactly, in every state: LIQUIDATING stays until no order is SUBMITTED or its grace has passed, WATCHING is entered and left by the silence, ESCALATING re-arms iff a beat is recent and the abort threshold not reached |
| DeadManBounds.TickKeeps | doomsday/doomsday/daemon.py:128-192 | What a tick keeps: no step, order or beat changes outside ESCALATING; the liquidation clock starts once; re-arming clears the progress |
| DeadManBounds.TickRecords | doomsday/doomsday/daemon.py:128-192 | From any state, reachable or not: switched off forces ARMED and nothing else; a move is journaled once, no move not at all; what re-arming clears |
| DeadManBounds.DueStepsAreAttempted | doomsday/doomsday/daemon.py:158-175 | Never late: after a tick in ESCALATING every step that is due has been attempted, unless an attempt raised |
| DeadManBounds.AttemptEffects | doomsday/doomsday/daemon.py:109-126 | One attempt by its notes, its order and whether it raised, for each kind of step and outcome |
| DeadManBounds.BeatRestartsClock | doomsday/doomsday/daemon.py:73-80 | An accepted beat restarts the clock, notes it only in ARMED, and changes nothing else; a refused one changes nothing |
| DeadManBounds.DisarmRearms | doomsday/doomsday/daemon.py:82-90 | A disarm re-arms exactly out of WATCHING and ESCALATING, and clears step count and both clocks in every state |
| DeadManBounds.EntersOnTime | doomsday/doomsday/daemon.py:134-190 | Never early: every state is entered by a tick only (ARMED also by a disarm), WATCHING after the grace, ESCALATING a period later, LIQUIDATING once the first step is due, DORMANT once released |
| DeadManBounds.AttendedStaysArmed | doomsday/doomsday/daemon.py:73-152 | Whoever beats again within the grace is never even watched |
| DeadManBounds.AttendedIsWatchedAtMost | doomsday/doomsday/daemon.py:73-152 | Within grace and one period, over every run: watched at most, and no step runs |
| DeadManBounds.LiquidatingWaits | doomsday/doomsday/daemon.py:181-190 | Over every run: a system that holds a SUBMITTED order is not DORMANT before the liquidation grace has passed since its clock started |
| DeadManBounds.NotDormantBeforeDeadline | doomsday/doomsday/daemon.py:128-192 | The lower bound that matches `DormantByBound`: up to grace * (1 + liquidation multiplier) + n periods after the beat, DORMANT means that no order is SUBMITTED or a step raised |
| DeadManBounds.DeadlineInMultipliers | doomsday/doomsday/config.py:38-44 | That deadline in the schema's own multipliers |
| Pullback.BullMirrorsBear | cortex/cortex/pullback.py:68-128 | The bear half on a reflected candle is the reflection of the bull half |
| Pullback.BearMirrorsBull | cortex/cortex/pullback.py:68-128 | And the other way round |
| Pullback.RunMirrors | cortex/cortex/pullback.py:42-128 | Reflecting every price gives the reflected tracker and the same transitions at every step of every run |
| Pullback.CandlesMirror | cortex/cortex/pullback.py:42-141 | For every list of candles and ATRs: reflected candles show the same state, transitions, depth and survival record |
| Pullback.UpdateInv | cortex/cortex/pullback.py:42-60 | One candle keeps the invariant: origin strictly behind the extreme, ARMED has a retrace, stored depths in [min_depth, 1), at most 200; the extreme never retreats |
| Pullback.RunInv | cortex/cortex/pullback.py:42-134 | So does every run |
| Pullback.CandlesLifecycle | cortex/cortex/pullback.py:42-134 | On every list of well-formed candles: the invariant, and every "resumed" preceded by its own "armed" |
| Pullback.LogIsMatched | cortex/cortex/pullback.py:73-97 | Every "resumed" is immediately preceded among all transitions by its own "armed" |
| Pullback.DepthGrows | cortex/cortex/pullback.py:62-66 | A price further behind the extreme is deeper |
| PullbackPrices.DepthIsShare | cortex/cortex/pullback.py:62-66 | Depth is the share of the leg given back: a price x legs behind the extreme has depth x, in both directions |
| PullbackPrices.UpdateInPrices | cortex/cortex/pullback.py:42-134 | Every update a run can reach is the one a reference in prices describes: first impulse, break, new extreme, arming, deeper retrace; a "resumed" makes the retrace the new origin and records the share it gave back |
| PullbackPrices.ArmsIff | cortex/cortex/pullback.py:86-92 | Out of ALIGNED, without a break or a new extreme and with a large enough leg: "armed" iff min_depth * leg <= what is given back < max_depth * leg |
| PullbackPrices.FortyPercentArms | cortex/cortex/pullback.py:62-97 | With the defaults, 40% of a ten-point leg given back arms; a new high resumes from there and leaves 0.4 on record |
| Pullback.PercentileIsDistribution | cortex/cortex/pullback.py:136-141 | The percentile is monotone within [0, 1], 0 up to min_depth and 1 from a full retrace on |
| Pullback.PercentileIsShare | cortex/cortex/pullback.py:136-141 | The percentile times the number of stored depths is the number of them below; without any it is a half |
| Pullback.PullbackTracker.UpdateWith | cortex/cortex/pullback.py:42-60 | The method's new state and result are those of the function, which `UpdateInPrices` states in prices |
| Pullback.PullbackTracker.StepBullWith | cortex/cortex/pullback.py:68-97 | The bull half, field by field |
| Pullback.PullbackTracker.StepBearWith | cortex/cortex/pullback.py:99-128 | The bear half, field by field |
| Pullback.PullbackTracker.RecordAlive | cortex/cortex/pullback.py:130-134 | Depths outside (0, 1) are dropped, the last 200 kept |
| Pullback.PullbackTracker.PercentileOf | cortex/cortex/pullback.py:136-141 | The loop computes the share of stored depths below the given one, a half without any |
| Pullback.PullbackTracker.Reset | cortex/cortex/pullback.py:163-169 | Back to the initial tracker |
| RiskGate.ApprovedIff | constitution/src/invariants.rs:65-92 | Approved, in full, are exactly the valid amounts out of drawdown up to the smaller headroom; `ExposureOfOne` and `ExposureAdds` fix the exposure that the headroom is counted from |
| RiskGate.ExposureOfOne | constitution/src/invariants.rs:65-82 | A single position counts with its absolute notional, overall and in its own asset, and not in another |
| RiskGate.ExposureAdds | constitution/src/invariants.rs:65-82 | Exposures of two books add up; with the law above this fixes the exposure of every book |
| RiskGate.DrawdownInCurrency | constitution/src/invariants.rs:61-64 | In drawdown means that the equity lost is at least the threshold's share of the high-water mark |
| RiskGate.GateInCurrency | constitution/src/invariants.rs:42-93 | The whole verdict in amounts, in the source's order: invalid, emergency, leverage, concentration, approved |
| RiskGate.DefaultsAtWork | constitution/src/invariants.rs:42-93 | The defaults at work: a fifth in one asset and no more however it was built up, two and a half times overall, an emergency at 15% |
| RiskGate.OrderIndependent | constitution/src/invariants.rs:65-84 | The verdict does not depend on the order of the positions |
| RiskGate.GrossByAsset | constitution/src/invariants.rs:65-84 | Exposure partitioned by asset: gross is at most the per-asset cap times the number of assets |
| Kernel.RecoveryConservation | constitution/src/state_machine.rs:70-168 | Over every run: successful recoveries plus those still owed equal twice the emergencies plus what was owed at the start |
| Kernel.EmergencyCountIsExact | constitution/src/state_machine.rs:70-77 | The counter equals the emergencies answered until it saturates |
| Kernel.ProposalCountIsExact | constitution/src/state_machine.rs:79-84 | The proposal counter counts every proposal, locked out or not, until it saturates |
| Kernel.FreshConservation | constitution/src/state_machine.rs:70-168 | From a fresh kernel, below saturation: recoveries + owed = 2 * emergency_count |
| Kernel.TwoRecoveriesBeforeApproval | constitution/src/state_machine.rs:79-168 | Exactly two successful recoveries separate an emergency from the next approval |
| Kernel.ProcessIff | constitution/src/state_machine.rs:79-139 | Approvals and emergencies are exactly the gate's while no recovery is owed, in SoftDeleveraging too; while one is owed every proposal is locked out |
| Kernel.DeepInCurrency | constitution/src/state_machine.rs:109-137 | The deleveraging threshold in amounts: four fifths of the drawdown limit's share of the high-water mark |
| Kernel.SoftDeleveragingApproves | constitution/src/state_machine.rs:109-137 | A run of the defaults that reaches SoftDeleveraging and has its next proposal approved there |
| Kernel.StateIsLastDecision | constitution/src/state_machine.rs:79-168 | Over every run the state is a function of the last decisive call and the recoveries since: an approval leaves the regime of its own drawdown; an emergency and 0, 1 or 2 recoveries leave EmergencyHalt, AutonomousRecovery or Normal |
| Kernel.UndecidedRun | constitution/src/state_machine.rs:79-168 | Without a decisive call only successful recoveries move the start state |
| Kernel.RunKeepsJournal | constitution/src/state_machine.rs:62-68 | The full journal is a chain of legal moves from Normal to the current state, without self-edges, and its saturated length is the counter |
| Kernel.KeptJournalIsChain | constitution/src/state_machine.rs:62-68 | So are the at most 64 entries kept |
| Kernel.ConstitutionKernel.RecordTransition | constitution/src/state_machine.rs:62-68 | The trimming loop keeps the longest allowed suffix |
| Kernel.ConstitutionKernel.Trimmed | constitution/src/state_machine.rs:65-67 | Dropping from the front while too long leaves the last 64 entries |
| Kernel.ConstitutionKernel.EnterEmergencyState | constitution/src/state_machine.rs:70-77 | Counts, halts, and journals unless already halted |
| Kernel.ConstitutionKernel.ProcessProposal | constitution/src/state_machine.rs:79-139 | The method's new state and verdict are those of the function |
| Kernel.ConstitutionKernel.AttemptRecovery | constitution/src/state_machine.rs:145-168 | The two-phase recovery, by the same standard |
| Voter.OneFaultIsMasked | constitution/src/tmr_voter.rs:22-111 | One faulty replica of three cannot change the verdict's class or raise an amount, and alters a reason only by rejecting first |
| Voter.VoteIsPairs | constitution/src/tmr_voter.rs:22-47 | The ballot in pairs: a majority iff two verdicts agree in class, unanimous iff all are equal, and as many divergent replicas as lie outside the largest class |
| Voter.ReplicatedGate | constitution/src/tmr_voter.rs:49-111 | Three replicas of the gate, one faulty: approved iff the honest gate approves, never above its headroom |
| ClosedLoop.LoopKeepsCaps | run_pipeline.py:61-81 | Feeding approved notionals back at fixed equity, no run of proposals and recoveries leaves the leverage and concentration caps |
| ClosedLoop.ApprovedAmountsAreCapped | run_pipeline.py:61-81 | In amounts: from an empty book, the approved notionals of any run add up to at most leverage cap * equity, and for each asset to at most concentration * equity |
| ClosedLoop.BookIsApprovals | run_pipeline.py:77-81 | The book is exactly the approvals, in order, each appended once |
| ClosedLoop.GrossIsDiversified | run_pipeline.py:61-81 | Nor gross exposure above concentration * equity * assets held |
| ClosedLoop.ReplicatedLoopKeepsCaps | constitution/src/tmr_voter.rs:49-111 | The same with three replicas and a possibly different faulty one each time |
| Ipc.StatusFits | constitution/src/ipc.rs:83-92 | After every run the status text is at most 164 bytes plus 44 per journal entry kept, within one frame |
| Ipc.ReplyLength | constitution/src/ipc.rs:65-109 | Every other reply - verdict, recovery, heartbeat, error - is a non-empty text of at most 150 characters |
| Ipc.IpcServer.HandleFrame | constitution/src/ipc.rs:55-109 | The dispatcher's new kernel and result are those of the function, in the source's order of checks |
| Ipc.DispatchIs | constitution/src/ipc.rs:55-109 | Which error a frame gets, in order of size, envelope, version and payload, and what each opcode answers |
| Ipc.DigitsRoundTrip | constitution/src/ipc.rs:83-92 | Counters read back from their text |
| Ipc.StatusShows | constitution/src/ipc.rs:83-92 | The status report gives each counter, the state and the journal under its own key |
| Ipc.HistoryShows | constitution/src/ipc.rs:83-92 | The journal's text gives every entry |
| Ipc.EdgeReads | constitution/src/ipc.rs:83-92 | An entry gives the state left before the state entered |
| Ipc.EvaluationShows | constitution/src/ipc.rs:71-82 | The reply to a proposal gives the verdict, its amount or reason, and the state |
| Ipc.RepliesShow | constitution/src/ipc.rs:93-107 | Every other reply gives what it reports under its own key |
| Ipc.NamesDiffer | constitution/src/ipc.rs:71-92 | Different states, and different reasons, have different names |
| Framing.LengthRoundTrip | constitution/src/bin/constitutiond.rs:92-97 | The 4-byte length reads back |
| Framing.HeaderOfLength | constitution/src/bin/constitutiond.rs:52-52 | Any 4 bytes are the header of the length they denote |
| Framing.HeaderIsBigEndian | constitution/src/bin/constitutiond.rs:92-97 | The header's four bytes, most significant first |
| Framing.LengthLimits | constitution/src/bin/constitutiond.rs:52-55 | Exactly the lengths 1 to 16384 are served |
| Framing.ServeWhole | constitution/src/bin/constitutiond.rs:45-78 | Whole frames of length 1..16384 arrive exactly, in order, once each, then a clean close |
| Framing.CutStream | constitution/src/bin/constitutiond.rs:45-90 | What is handled when the stream ends inside a header or a body |
| Framing.ExactIffWhole | constitution/src/bin/constitutiond.rs:45-90 | On a stream that ends in order the daemon handles exactly what was sent iff it is whole frames of legal length |
| Framing.BrokenStream | constitution/src/bin/constitutiond.rs:45-90 | On a stream that breaks instead, exactly the whole leading frames are handled, none is made up, and the error is reported |
| Framing.OrderlyStream | constitution/src/bin/constitutiond.rs:45-90 | The two agree on a stream that does not break |
| Framing.StrayByte | constitution/src/bin/constitutiond.rs:45-90 | One stray byte after a frame is handled as a second frame |
| FramedIo.ReadFull | constitution/src/bin/constitutiond.rs:80-90 | For every schedule of short reads the buffer is filled in place with what is available, the rest untouched; it fails iff the stream breaks before the buffer is full |
| FramedIo.Connection.WriteFrame | constitution/src/bin/constitutiond.rs:92-97 | Appends length and payload as far as the peer takes them; fails iff it does not take all |
| FramedIo.HandleConnection | constitution/src/bin/constitutiond.rs:45-78 | For every input, schedule, way of ending and amount the peer takes: the kernel sees exactly the served frames in order, up to the first whose reply cannot be written, and each gets one framed reply |
| FramedIo.Respond | constitution/src/bin/constitutiond.rs:63-76 | One frame handled under the lock, one reply written; handled also when the reply cannot be |
| FramedIo.AnswersFit | constitution/src/ipc.rs:55-109 | Every reply of a reachable kernel fits a frame: status reports by the journal bound, all others by their length |
| FramedIo.SessionRoundTrip | constitution/src/bin/constitutiond.rs:45-97 | Encoded frames are served back exactly, and the output is one encoded frame of legal length per request, in order |
| FramedIo.RepliesAreFrames | constitution/src/bin/constitutiond.rs:92-97 | The output is the concatenation of the encoded replies |
| Client.ReadExact | cortex/cortex/constitution_client.py:38-48 | Exactly the next bytes, or an error iff the stream is shorter, for every schedule of short reads |
| Client.Exchange | cortex/cortex/constitution_client.py:55-62 | A request that cannot be sent fails; otherwise, against a whole reply, it returns it iff one recv delivers the whole header, consuming nothing else; any success is a whole frame of legal length |
| Client.OneByteHeader | cortex/cortex/constitution_client.py:56-58 | A whole reply whose first recv returns one byte is an error |
| Client.ConstitutionClient.SendFrame | cortex/cortex/constitution_client.py:50-62 | The same behind the session check and the text decoding |
| Client.ConstitutionClient.Converse | run_pipeline.py:61-81 | A session of requests: for every schedule of short reads the bodies are the first replies in order; all of them means all requested and nothing else consumed |
| SharedKernel.InterleavingIsSequential | constitution/src/bin/constitutiond.rs:18-78 | For every schedule of any number of connections, ending or broken, replies written or not: kernel and results are those of one sequential run; each connection's frames appear in order, with exactly the rest still to come unless a reply of its own failed |
| SharedKernel.ConnectionsFinish | constitution/src/bin/constitutiond.rs:18-78 | Given more turns than it has input, every connection is over, whatever the others do; unless a reply to it failed, all its frames have been handled |
| Mesh.RoundAccounting | mesh/mesh/bft_consensus.py:120-138 | Votes + new Byzantine counts + honest peers without an address account for every member asked, itself included |
| Mesh.VotersAreCounted | mesh/mesh/bft_consensus.py:134-137 | As many distinct voters as yes ballots |
| Mesh.OneNodeOneVote | mesh/mesh/bft_consensus.py:120-138 | Votes equal distinct backers in every possible round iff the node is not an addressed, unmarked peer of its own |
| Mesh.SelfPeerDoubleVote | mesh/mesh/bft_consensus.py:55-61 | A node that is its own only peer reaches quorum alone |
| Mesh.QuorumsIntersect | mesh/mesh/bft_consensus.py:73-74 | Two quorums of one membership share a voter |
| Mesh.QuorumIsMajority | mesh/mesh/bft_consensus.py:73-74 | A quorum is exactly a strict majority of peers and node together |
| Mesh.BallotIff | mesh/mesh/bft_consensus.py:124-137 | When a peer counts as yes, as no and as not asked, exactly |
| Mesh.BFTNode.BroadcastCommit | mesh/mesh/bft_consensus.py:140-153 | The loop sends one notice to each addressed peer and nothing else |
| Mesh.BFTNode.RegisterPeer | mesh/mesh/bft_consensus.py:55-61 | Adds an honest peer once; a later address replaces the old one and nothing else |
| Mesh.BFTNode.SetPeerPolicy | mesh/mesh/bft_consensus.py:63-67 | Changes the policy iff the peer is registered |
| Mesh.BFTNode.ReceiveCommit | mesh/mesh/bft_consensus.py:76-85 | The ledger changes iff the sender is registered |
| Mesh.BFTNode.AnswerVoteRequest | mesh/mesh/bft_consensus.py:181-185 | Yes to every proposer not marked faulty |
| Mesh.BFTNode.CollectVotes | mesh/mesh/bft_consensus.py:120-138 | The vote loop's ballots, votes and Byzantine count, peer by peer |
| Mesh.BFTNode.ProposeLive | mesh/mesh/bft_consensus.py:155-173 | Commits iff the voters, itself included, are more than half of its peers and itself; then the ledger holds the value and exactly the addressed peers are told; otherwise only counters change |
| Mesh.BFTNode.ProposeSimulated | mesh/mesh/bft_consensus.py:156-164 | Without a transport a proposal always commits |
| MeshNetwork.RunInv | mesh/mesh/bft_consensus.py:63-195 | Every interleaving, policy changes included, keeps: fixed membership, rounds whose every ballot fits the policies when it was cast, backed commits in flight, backed ledgers |
| MeshNetwork.EntriesHaveQuorums | mesh/mesh/bft_consensus.py:76-173 | Whatever is lost, late, repeated or interleaved, every ledger entry came from a certified round of the node or a registered peer |
| MeshNetwork.CommitsHaveQuorums | mesh/mesh/bft_consensus.py:140-173 | So did every commit in flight |
| MeshNetwork.WonIsCertified | mesh/mesh/bft_consensus.py:120-173 | A won round has a quorum of accepting, registered voters, none marked or marking the proposer when it voted, and accounts for every member once |
| MeshNetwork.CertifiedRoundsShareAVoter | mesh/mesh/bft_consensus.py:73-74 | Two certified rounds of one membership share a voter when neither proposer is its own peer |
| MeshNetwork.DecideIff | mesh/mesh/bft_consensus.py:155-173 | A complete round commits iff more than half of the membership voted yes, and what its proposer's ledger, counters and notices then are |
| MeshNetwork.AskIff | mesh/mesh/bft_consensus.py:120-138 | One vote request over the network: the ballot it leaves, what the two sides thought of each other then, and the Byzantine count |
| MeshNetwork.PolicyIff | mesh/mesh/bft_consensus.py:63-67 | A policy is set iff its peer is registered, and nothing else changes |
| MeshNetwork.DeliverIff | mesh/mesh/bft_consensus.py:76-85 | A delivered commit enters a ledger iff its sender is registered there, overwriting that key only |
| MeshNetwork.AgreementIff | mesh/mesh/bft_consensus.py:76-195 | Every way of delivering the commits in flight leaves all ledgers agreeing on a key iff no two nodes stand to hold different values, by ledger or acceptable message |
| MeshNetwork.UncontendedKeysSettle | mesh/mesh/bft_consensus.py:76-173 | That is so in every reachable state in which all certified rounds on the key carry one value |
| MeshNetwork.ContendedKeysDisagree | mesh/mesh/bft_consensus.py:155-195 | Two mutual peers that both propose, every message delivered, end with different values |
| MeshNetwork.RivalsAreUnsettled | mesh/mesh/bft_consensus.py:155-195 | Once both rivals have won, the state is one that deliveries can leave in disagreement |
| MeshNetwork.RunCounters | mesh/mesh/bft_consensus.py:120-173 | Byzantine and rejection counters grow exactly by the no ballots and lost rounds of the node's own proposals |
| ShadowDrawdown.Simulate | evolution/evolution/sandbox_runner.py:129-169 | In every ending the exact all-pairs drawdown of the path. On survival: the whole path and its last equity. On ruin: equity 0 and where, the ruinous tick not counted. A policy that raises ends the run at its call; one that never raises survives iff the whole path stays positive |
| ShadowDrawdown.SurvivalIff | evolution/evolution/sandbox_runner.py:144-162 | Known before the run: a positive start survives iff every tick is positive; on positive ticks any other start is ruined iff there is a tick |
| ShadowDrawdown.GeneratedSurvival | simulation/simulation/synthetic_gen.py:26-49 | On the generator's curves, whatever is drawn, every positive start survives, so its drawdown is that of the whole path |
| ShadowDrawdown.GeneratePricePath | simulation/simulation/synthetic_gen.py:26-49 | The loop's curve: each price drifted, floored and rounded |
| ShadowDrawdown.PricesDrift | simulation/simulation/synthetic_gen.py:46-46 | Each price is the one before changed by its drift, or the floor |
| ShadowDrawdown.CurvesAreRounded | simulation/simulation/synthetic_gen.py:47-48 | A curve is those prices rounded to six decimals, the even one on a tie |
| ShadowDrawdown.ZeroStartIsRuined | evolution/evolution/sandbox_runner.py:35-35 | A start equity of zero, which the configuration accepts, is ruined by the first tick |
| ShadowDrawdown.Execute | evolution/evolution/sandbox_runner.py:73-127 | A policy that raises never passes and reports the start equity; otherwise the result is the simulation's |
| ShadowDrawdown.WorstStep | evolution/evolution/sandbox_runner.py:163-166 | One tick of running peak and drawdown keeps the all-pairs maximum |
| ShadowDrawdown.WorstIsUnique | evolution/evolution/sandbox_runner.py:163-166 | The all-pairs drawdown is one number |
| ShadowDrawdown.FallIsShare | evolution/evolution/sandbox_runner.py:163-166 | A fall is the share of the earlier point lost at the later one |
| ShadowDrawdown.PathIsProportional | evolution/evolution/sandbox_runner.py:144-162 | Within a year equity moves in proportion to the curve, against its first point |
| ShadowDrawdown.PassedIff | evolution/evolution/sandbox_runner.py:119-119 | A finished path passes iff it ends positive and no fall from an earlier to a later point exceeds the ceiling |
| ShadowDrawdown.EmergencyIffWorst | constitution/src/invariants.rs:61-64 | On a positive path, with the running peak as high-water mark, the gate calls an emergency at some point iff worst_drawdown reaches its threshold |
| Streaks.ObserveStreakExtreme | cortex/cortex/sequence_stats.py:99-130 | The pass tallies, per direction and run length, the positions before the end with that run and a non-flat next move; the report has one smoothed rate per tally, strictly between 0 and 1 |
| Streaks.MovesAreCloses | cortex/cortex/sequence_stats.py:105-105 | Moves are comparisons of neighbouring closes |
| Streaks.RateIsSmoothed | cortex/cortex/sequence_stats.py:125-130 | The rate reported is that of reversals: (count - continuations + 1) / (count + 2) |
| Streaks.TableIsPositions | cortex/cortex/sequence_stats.py:99-122 | The tallies are sizes of sets of positions whose maximal run is exactly r; keys exist iff their count is positive |
| Streaks.CountsNeverGrow | cortex/cortex/sequence_stats.py:112-122 | Continuations at r equal the count at r + 1 plus the stalled runs of r + 1, so the count at r + 1 is no larger |
| Streaks.CountsNeverGrowAtAll | cortex/cortex/sequence_stats.py:112-122 | Longer runs are never counted more often |
| NextCandle.StreakIsMaximal | cortex/cortex/ml.py:46-57 | The streak is the maximal same-colour run ending at the bar |
| NextCandle.Streak | cortex/cortex/ml.py:46-57 | The backward loop computes it |
| NextCandle.TailAtr | cortex/cortex/ml.py:74-75 | The ATR of the 17-candle tail is the ATR of the whole prefix |
| NextCandle.ReadBar | cortex/cortex/ml.py:71-92 | Bar i's inputs, with the whole prefix's ATR |
| NextCandle.BarsArePointInTime | cortex/cortex/ml.py:71-92 | Nothing after bar i enters its features |
| NextCandle.TrainingSet | cortex/cortex/ml.py:187-196 | The loop collects every bar from the window's start that has a closed successor, with that successor's colour |
| NextCandle.TrainingIsPointInTime | cortex/cortex/ml.py:187-196 | Each training bar is as it looked when it was the last one; its label is the next closed candle's colour |
| NextCandle.EveryCallIsScoredOnce | cortex/cortex/ml.py:154-185 | Decisions are exactly the calls that meet a next candle with a colour, once each, in order; the last call is pending |
| NextCandle.FeaturesAreLocal | cortex/cortex/ml.py:71-92 | Two bars with the same last 15 candles have the same features, however long their streaks |
| NextCandle.FitIsLocal | cortex/cortex/ml.py:187-196 | With a rolling window of w bars a model depends on the last w + 14 candles only |
| NextCandle.CallIsWalkForward | cortex/cortex/ml.py:168-185 | Every call comes from a model fitted on enough examples of a prefix at most retrain_every - 1 candles old, asked about the last bar |
| LearnerReading.ColourIsBody | cortex/cortex/ml.py:42-43 | Green closes above its open, red below, a doji at it |
| LearnerReading.FeaturesInCandles | cortex/cortex/ml.py:71-92 | The seven features in raw candles: colour, body and range in ATRs, the capped green and red streaks, the nine-bar move in ATRs, the body's share of the range |
| LearnerReading.ExamplesAre | cortex/cortex/ml.py:187-196 | Which bars are examples, and the features and label of each |
| LearnerReading.FitsIff | cortex/cortex/ml.py:187-200 | A fit needs minTrain examples |
| LearnerReading.CallsGreenFromHalf | cortex/cortex/ml.py:180-185 | Green from a probability of a half on, red below |
| LearnerReading.StepIs | cortex/cortex/ml.py:154-185 | One step: when only scored, when the model is asked as it is, when it is replaced first, and what a failed fit leaves |
| LearnerReading.RetrainsOnSchedule | cortex/cortex/ml.py:168-185 | When every fit succeeds, the model is replaced at the opening and every retrain_every candles after it, no sooner and no later, and calls every candle from there on |
| NextCandle.NextCandleML.Step | cortex/cortex/ml.py:154-185 | The method's new state and call are those of the function |
| NextCandle.NextCandleML.Receive | cortex/cortex/ml.py:157-163 | The candle settles the pending call; a doji drops it |
| NextCandle.NextCandleML.Retrain | cortex/cortex/ml.py:169-180 | The retrain clock, which keeps running through failed fits |

## Left out

- GrossIsDiversified: equity and high-water mark are fixed during the loop, as the source's loop leaves them.
- ReplicatedLoopKeepsCaps: the source does not connect the voter to the kernel's loop; this composes the two.
- HandleFrame: parsing of envelopes and payloads is an opaque function.
- ReplyLength: the text of a float is an opaque function; the shortest text that reads back as the same double has at most 24 characters. Serialization, which cannot fail on these values, is not modelled as failing.
- MeshNetwork.RunInv: peers are not registered during a network run; RegisterPeer covers registration on the node.
- RunCounters: deliveries also raise commit counts, which are not summed here.
- Timestamps and detail texts of journal entries; the daemon's background thread and last-error text.
- Float rounding, NaN and infinity: the gate's numeric validity test is modelled for finite numbers, and position notionals are finite.
- URI to node resolution: an address is assumed to reach the node registered under that id; the transport is the set of sent messages.
- Sorting inside the percentile, which counts smaller depths and does not depend on order.
- The learner's accuracy report and the streak module's body-size table, which would only add easy members. That equal histories give equal calls is a lemma without a row: it holds of any deterministic step.
- Model fitting, prediction, hashing, signatures and random draws: opaque or arbitrary.
- Sockets, the gateway, live feeds, process supervision, the event engine's pattern tables, compliance, adapters and key storage.
