# Token engine: state, execution and ledger

A Dafny model of the parts of the engine whose correctness spans whole runs:

* **Event-sourced token state** (`apps/engine/src/state/`). `StateEngine` folds blockchain events into per-token
  accounting, drops late events and marks their token for rebuild, parks trades whose token is unknown, and takes
  snapshots on a milestone and periodic schedule. `RollingWindows` keeps seven sliding windows incrementally.
  `Schedule`, `Rolling`, `Domain`, `TokenBooks`, `EngineBooks` and `StateEngine` model it; `Replay`, `Stays`,
  `OrderedReplay` and `Cadence` prove what whole runs end with.
* **Execution and position ledger** (`apps/engine/src/sim/`, `apps/engine/src/lab/reconcile.rs`). `Impact` models the
  bonding-curve and constant-product swaps with fees, caps and the inverse formula for short fills, and the bounded
  binary search for the largest order within an impact. `Execution` models the retry loop over a time-capped snapshot
  book, `Position`, `Ledger` and `Reconcile` the positions, their exits and the recomputation of their profit, and
  `Harness` the historical simulation that ties them together; `TokenRuns` takes a run apart, token by token, and
  `RunNoLookahead` and `Foresight` prove how far a run looks ahead.
* **Two smaller cores**: `DatasetGate` (the streaming dataset gate) and `MilestoneScheduler` (the live milestone timer).

Amounts are integers below 2^256 with the code's saturating addition, subtraction and multiplication (`Amounts`); times
are milliseconds, saturated to 64 bits where the code saturates. Objects that the code updates in place are classes
whose `Valid()` is the invariant kept by every method; ghost fields record what happened (every trade folded, every
snapshot taken, every exit) so that the invariants can speak of whole histories.

How the engine's invariant reads: a *life* is one stay of a token in memory. `EngineBooks.BooksOk` says that the due
snapshots of each token's latest life are stamped with exactly the due times from its discovery to the last time it was
asked, each once and in order, each milestone age tagged once; that every token in memory has the aggregates, trade log
and windows of exactly the trades folded into it; and that, while its trades came in time order, every due snapshot
stamped T holds exactly the trades before T. `NoneStuck` says that no parked trade could be applied. For ordered runs,
`OrderedReplay.Run` speaks of every life of every token, not only the latest.

Facts about the code that the results rest on:

* The product after a buy can fall below the constant: both floors of the swap round in the trader's favour, so a round
  trip can gain (`RoundTripCanGain`). Selling everything a net quote `a` bought returns at most `a` exactly when
  `a >= vs` or `(vs - a) * (vs * vt % (vs + a)) <= 2 * a * a * vt`, while nothing saturates (`RoundTripFits`), and
  exactly under the condition of `FullRoundTripExact` on any reserves.
* A short fill is charged the exact inverse only while the product fits a word (`ShortFillIsLargest`).
* Eviction runs only on a clock tick, so a token that trades again past its cold age is kept or begins a second stay by
  whether a tick came first (`OneStayExactly`). Its due snapshots are still those of a token that never left exactly
  when nothing falls due in any stay but the first (`CadenceExactly`); a return can go either way (`ReturnTakesMore`,
  `ReturnCanBeQuiet`). Windows past the hot age depend on the ticks in any case.
* The pipeline stores an event only after the rebuild that the event brings about (`apps/engine/src/pipeline.rs:88`
  comes before `:118`). In replay a late event is therefore missing from the store its own rebuild reads: the token is
  rebuilt without it, is no longer marked, and does not hold it until it is rebuilt again (`LateEventIsLost`). A
  rebuilt token holds everything pushed for it exactly when the store had all of it at its last rebuild
  (`BuiltOfAllExactly`).
* A position is there as soon as its buy is placed, with the time of its fill still to come. So a decision can depend on
  what is only known at that time (`DecisionsCanLookAhead`), and an emergency can sell a token before it was bought
  (`SoldBeforeBought`, `CanSellFirstExactly`). A token's position is at every snapshot what it is on the data known by
  then exactly when no order placed for the token has its fill still to come (`LooksAheadExactly`), and then what is
  decided about it is too (`DecidesOnWhatIsKnown`).
* Once a window's volume has saturated, expiring trades can leave it too low (`SaturatedExpiry`); `StepIsSafeExactly`
  says exactly when.
* Live, everything in the reorder buffer is before the last applied event, so a flush drops and marks all of it: the
  buffer delays late events but never reorders one. A late event displaces a buffered one of the same order, and a
  rebuild clears the buffer; neither marks the lost event's token (`LosesExactly`, `ThreeLoseOne`, `RebuildToken`).
* Snapshot counts come from a log capped at 8192 trades: they are complete exactly when no more came before
  (`CountsCompleteIffUnderCap`). Volumes are not capped.
* The skip-ahead in `due_times` can leave the grid only from a negative start, when its 64-bit arithmetic overflows
  (`SkipAhead`, `SkipAheadOffGrid`).
* The graduation check compares the numbers of graduated and launched mints, not the sets.
* The stored profit of a position is not the reconciled one in general; the difference is exact and bounded
  (`DriftExact`).

## Model

The main results come first; the operations they are about, and the laws they rest on, follow module by module.

| member | source | states |
|---|---|---|
| OrderedReplay.Run | apps/engine/src/state/engine.rs:192-259 | In an ordered run with any clock ticks in between, the due snapshots of each token are those of its stays in memory, one after the other: each stay's are stamped with its schedule up to the last time asked for, each once, in order, tagged, and each holding exactly the trades of the stay before its stamp. |
| Stays.OneStayExactly | apps/engine/src/state/engine.rs:1012-1023 | A token has at most one stay, begun with its first event and with all its events, exactly when no tick at or past its cold age comes between two of its events. |
| Stays.StaysShareEvents | apps/engine/src/state/engine.rs:350-371 | The stays of a token share out its events: all of them, each once, in their order, each stay beginning with its own first event. |
| Cadence.CadenceExactly | apps/engine/src/state/engine.rs:251-259 | An ordered run takes, of a token, the due snapshots of one that never left memory exactly when nothing falls due in any of its stays but the first: stamps, tags, counts, distinct traders and volumes, and before the hot age the windows. |
| Cadence.SameSnapshotsExactly | apps/engine/src/state/engine.rs:251-259 | Two ordered runs over the same events of a token, driven to the same time, one of them quiet after its first stay: they take the same due snapshots, what the creator traded in the windows aside, exactly when the other is quiet too, wherever the ticks fell. |
| Cadence.StampsExactly | apps/engine/src/state/engine.rs:251-259 | The stamps alone, of one run: they are the schedule from the first discovery to the end exactly under the same condition. |
| Cadence.SameStampsExactly | apps/engine/src/state/engine.rs:251-259 | Of any two ordered runs driven to the same time, returning or not: their due snapshots of a token are stamped alike exactly when the same moments are in the schedules of their stays. |
| Cadence.TickCadenceDoesNotMatter | apps/engine/src/state/engine.rs:251-259 | So two runs in which the token has at most one stay take the same due snapshots. |
| Cadence.SameStaysAlike | apps/engine/src/state/engine.rs:251-259 | For tokens with any number of stays: the same stays take the same snapshots. |
| Cadence.ReturnTakesMore | apps/engine/src/state/engine.rs:1012-1023 | A trade past the cold age, with the default schedule and memory: a tick before it makes it begin a second stay and take more snapshots than the same events without that tick. |
| Cadence.ReturnCanBeQuiet | apps/engine/src/state/engine.rs:1012-1023 | The same return, driven to less than five seconds after it: a second stay that leaves no trace. |
| Replay.Interleave | apps/engine/src/pipeline.rs:296-362 | For any interleaving of pushes in any order, taking of marked keys, and rebuilds, whatever the store has at each: every token neither marked nor waiting for its rebuild holds exactly the trades that the store had of it at its last rebuild and those pushed for it since. |
| Replay.BuiltOfAllExactly | apps/engine/src/pipeline.rs:88-118 | That is everything pushed for a rebuilt token exactly when the store had, at its last rebuild, every event of it pushed so far. |
| Replay.BuiltIsPushed | apps/engine/src/pipeline.rs:296-362 | It is so whenever every rebuild of the token found all its events in the store. |
| Replay.LateEventIsLost | apps/engine/src/pipeline.rs:88-118 | In the pipeline's own order, which rebuilds before it stores: once an event has been pushed after a later one of its token, the token holds only the later one and is not marked. |
| Replay.Converge | apps/engine/src/pipeline.rs:296-362 | ... and once the keys still marked or waiting are rebuilt, every token's aggregate is the fold over what it is built of: over exactly the trades pushed for it, if the store had its events at each of its rebuilds. |
| Replay.ArrivalOrderDoesNotMatter | apps/engine/src/state/engine.rs:293-323 | Two converged runs over permutations of the same events have equal aggregates. |
| Replay.PushStream | apps/engine/src/state/engine.rs:192-348 | For any stream, in replay or live, addressed or not: the trades folded or parked are exactly those of the events that came after no later one; every other trade is dropped as late with its token marked, or waits in the live buffer, or was displaced there; what waits and what was displaced are functions of the stream; and no parked trade could be applied. |
| Replay.LosesExactly | apps/engine/src/state/engine.rs:192-213 | A live stream displaces a trade exactly when some late event has the order of one that came since the buffer was last emptied, and the last of these is a trade: in terms of the stream alone. |
| Replay.SinceOnTime | apps/engine/src/state/engine.rs:204-208 | While at most 64 orders came since the last event on time, it was that event that last emptied the buffer. |
| Replay.DistinctLosesNothing | apps/engine/src/state/engine.rs:192-213 | Never, while no two events have the same order. |
| Replay.ThreeLoseOne | apps/engine/src/state/engine.rs:204-208 | An event, then two of one order before it: the first of the two is lost. |
| Replay.PushAll | apps/engine/src/state/engine.rs:192-213 | For any arrival order, every token not marked for rebuild holds exactly the trades pushed for it. |
| Rolling.RunWindows | apps/engine/src/state/rolling.rs:284-358 | For any run of pushes, expiries and the final giving up of the windows: the incremental snapshots taken after every operation are the recomputed ones, in each window, exactly when no expiry of the run spoiled it; the as-of windows, at any time not before an operation, are those of every trade pushed, in whatever time order. |
| Rolling.StepIsSafeExactly | apps/engine/src/state/rolling.rs:97-173 | An expiry, followed by a push or not, leaves every volume right exactly when, for each, the total before fitted a word, or nothing of it remains, or what is pushed makes up for what was dropped. |
| Rolling.IncrementalIsAsOf | apps/engine/src/state/rolling.rs:303-343 | When times never go back and no expiry spoiled the window, the incremental snapshot right after a push is the window of every trade pushed so far. |
| Rolling.FittingRunIsSafe | apps/engine/src/state/rolling.rs:113-173 | No expiry spoils anything while the volumes of everything pushed fit a word. |
| Rolling.SaturatedExpiry | apps/engine/src/state/rolling.rs:97-212 | A window into which the largest word and then one are pushed, and the first expires: it holds one trade of one and reports a volume of zero. |
| Rolling.DiscardingIsSafe | apps/engine/src/state/rolling.rs:97-106 | From any time not before the last push or expiry, the pruned deque shows the same window as every trade ever pushed, even when times are not monotone. |
| TokenBooks.CountsCompleteIffUnderCap | apps/engine/src/state/engine.rs:656-659 | A snapshot's counts add up to every trade before its stamp exactly when at most 8192 came before. |
| Foresight.LooksAheadExactly | apps/engine/src/sim/harness.rs:47-255 | With snapshots in time order and retries that do not go back in time: a token's position has been, at each of the first snapshots of a run, what it is when the data end at a time not before them, exactly when no order placed for that token in those snapshots had its fill still to come then, whatever was pending for other tokens. |
| Foresight.DecidesOnWhatIsKnown | apps/engine/src/sim/harness.rs:47-255 | Then whether to enter the token, and what to sell of it, is decided as on the data known by that time. |
| Foresight.DecisionsDoNotLookAhead | apps/engine/src/sim/harness.rs:47-255 | For all tokens at once: two setups that agree up to a time (snapshots, verdicts, candidates, eligibility), by which the orders of the snapshots before are over, have the same positions at a snapshot not after that time, enter alike, and ask the same of every position. |
| Foresight.DecisionsCanLookAhead | apps/engine/src/sim/harness.rs:47-255 | Without that, they can differ: two setups that agree up to 100 ms, one of which decides at 100 to sell and the other does not, by what is known at 2000. |
| Foresight.SoldBeforeBought | apps/engine/src/sim/harness.rs:101-255 | A run in which a token's buy fills at 2000 and its emergency sell at 600. |
| Foresight.CanSellFirstExactly | apps/engine/src/sim/exec.rs:190-224 | Some attempt of an exit comes before some attempt of its entry exactly when the time from the decision to enter to the decision to exit is less than what the entry's delay and all its retries exceed the exit's delay by. |
| Foresight.SoldFirstExactly | apps/engine/src/sim/exec.rs:190-224 | Of two fills, the sell comes before the buy exactly when the time between the two decisions is less than what the buy's delay and the retries it took exceed the sell's by; a position's opening time is its buy's fill time. |
| Foresight.OrdinaryExitsFillAfter | apps/engine/src/sim/exec.rs:190-224 | An exit that is no emergency never fills before a buy that filled at its first attempt. |
| TokenRuns.RunIsOwn | apps/engine/src/sim/harness.rs:86-255 | What a run holds, has entered and has ordered of a token, numbers of orders aside, is what the run of that token alone has, which reads only its own snapshots: one position at most, and nothing done with other tokens matters to it. |
| RunNoLookahead.RunDoesNotLookAhead | apps/engine/src/sim/harness.rs:47-255 | With snapshots in time order, two setups that agree up to a time place the same orders, first to last, for every snapshot whose orders are over by then, and their whole runs begin with those orders. |
| RunNoLookahead.SameRun | apps/engine/src/sim/harness.rs:47-255 | In any order of snapshots: the same first snapshots lead to the same entries, positions and orders. |
| RunNoLookahead.DefaultSettles | apps/engine/src/sim/exec.rs:190-215 | With the default delays and retries, the orders of a snapshot are over 9200 ms after it. |
| Harness.RunHistorical | apps/engine/src/sim/harness.rs:47-278 | One position per token at most, bought by the token's only buy fill and sold by exactly its sell fills, at most three partial exits and one close; buys and positions correspond one to one; and orders and positions are those of the run on values, of which the no-lookahead rows speak. |
| Harness.ReconcileRun | apps/engine/src/lab/reconcile.rs:80-133 | Every position of a run reconciles on inventory and closing, whatever its amounts; its profit drift is between 0 and 3 while cost times inventory and the quote received fit a word. |
| Execution.NoLookahead | apps/engine/src/sim/exec.rs:176-294 | Books that agree up to the last possible fill time give the same result in every field. |
| Execution.CutBook | apps/engine/src/sim/exec.rs:176-294 | A book of the same snapshots that ends sooner gives the same fill, in every field, if it came by then, and no fill otherwise. |
| Execution.FirstFillOrNothing | apps/engine/src/sim/exec.rs:219-294 | An order fills exactly when some attempt reached without an unobservable one can fill; it fills at the first such attempt, from the latest snapshot not after that attempt's time; otherwise every amount is zero. |
| Ledger.DriftExact | apps/engine/src/lab/reconcile.rs:48-63 | Stored minus reconciled profit is the whole units the per-exit floors left behind: never negative, less than the number of exits, zero for one exit; the two agree exactly when less than one unit was left behind. |
| Ledger.DriftIsTight | apps/engine/src/lab/reconcile.rs:48-63 | The bound is reached for every number of exits. |
| Reconcile.ReconcileOwnFills | apps/engine/src/lab/reconcile.rs:80-133 | A position always agrees with its own fills on inventory and closing, so the check passes exactly when the two profits are equal; while nothing overflows, the drift is exact, and the check passes exactly when the floors left behind less than one unit. |
| Reconcile.TwoExitsCanDisagree | apps/engine/src/lab/reconcile.rs:48-63 | Two exits whose stored and reconciled profits differ by one. |
| Impact.ShortFillIsLargest | apps/engine/src/sim/impact.rs:271-280 | The charge of a short fill is the largest net quote whose output does not exceed the tokens delivered, exactly when the stored product holds the reserve times the tokens left. |
| Impact.SaturatedShortFill | apps/engine/src/sim/impact.rs:271-280 | For the largest reserves, whose product saturates, a delivered token is charged nothing. |
| Impact.RoundTripFits | apps/engine/src/sim/impact.rs:246-346 | Selling everything a net quote buys returns at most it exactly when the quote is at least the reserve, or the reserve left, times what the buy's floor gives away, is at most twice the quote squared times the token reserve; while reserves and product fit a word. |
| Impact.FullRoundTripExact | apps/engine/src/sim/impact.rs:246-346 | The same on any reserves, saturating or not: a condition on the reserves and the quote alone, which does not run the swap. |
| Impact.RoundTripNeverGains | apps/engine/src/sim/impact.rs:216-366 | Through the whole swap, with any fees, caps and adverse movement, a round trip returns at most the net quote, and so at most the quote, once vs² is at most 2·net²·vt and vs·vt fits a word. |
| Impact.RoundTripCanGain | apps/engine/src/sim/impact.rs:216-366 | A round trip can gain: one unit returns twenty-five. |
| Impact.VenueFillsAreHonest | apps/engine/src/sim/impact.rs:49-178 | Every answer is a fill within its limits or nothing; a fill needs known reserves of known quality in a tradable stage. |
| Impact.MaxQuoteAtImpact | apps/engine/src/sim/impact.rs:396-456 | The answer is accepted; if the first bound is below 2^64, the answer is the bound or the next integer is rejected, and no answer means one was rejected; beyond 2^64 the gap is at most a 2^64-th of the bound. |
| DatasetGate.ValidateStream | apps/engine/src/historical/validate.rs:133-506 | Over a whole stream: research-valid exactly when replayable as history exactly when every event is a placed, signed, integer corpus row with a mint, the stream is sorted, something launched and traded, the numbers of graduated and launched mints differ, and some mint never traded or fewer graduated than launched; feature-only and invalid exactly otherwise. |
| DatasetGate.GateIsExact | apps/engine/src/historical/validate.rs:367-506 | The verdict, in both directions, in terms of the stream itself. |
| MilestoneScheduler.RunCalls | apps/engine/src/live.rs:48-91 | Over any calls, each pop hands out exactly the promised milestones that are due and that no earlier pop handed out, each at the time promised for it, soonest first, and each naming a token registered before. |
| MilestoneScheduler.OnceInAPop | apps/engine/src/live.rs:70-91 | No milestone is handed out twice within one pop. |
| MilestoneScheduler.NeverTwice | apps/engine/src/live.rs:48-91 | No milestone is handed out by two pops. |
| MilestoneScheduler.DueIsDelivered | apps/engine/src/live.rs:70-91 | By the first pop not before its time, a promised milestone has been handed out. |
| StateEngine.StateEngine.PushSnapshot | apps/engine/src/state/engine.rs:910-1010 | Appends the snapshot of the token as it stands, skips a due time already emitted, and moves the emission marks only for due snapshots. |
| StateEngine.StateEngine.EmitDue | apps/engine/src/state/engine.rs:879-903 | Keeps the books: the token's due snapshots up to the time are taken, each once; nothing but its emission marks changes. |
| StateEngine.StateEngine.FoldTrade | apps/engine/src/state/engine.rs:555-670 | Folds one trade into one token; every other token and every snapshot already taken stays. |
| StateEngine.StateEngine.ApplyTrade | apps/engine/src/state/engine.rs:509-671 | A trade is folded exactly once or parked; an unknown named token is created first, freeing its parked trades before this one. |
| StateEngine.StateEngine.ApplyDiscovered | apps/engine/src/state/engine.rs:373-507 | Creates or completes the token, indexes it, and flushes: the parked trades now resolvable are folded in order, the rest stay in order, and none is left that could be applied. |
| StateEngine.StateEngine.ApplyLifecycle | apps/engine/src/state/engine.rs:673-832 | Updates the token's stage and addresses, indexes them, snapshots, and flushes likewise; an unresolvable event changes nothing. |
| StateEngine.StateEngine.FlushUnresolved | apps/engine/src/state/engine.rs:834-843 | Each parked trade is folded exactly once or parked again, in order, and afterwards no parked trade could be applied. |
| StateEngine.StateEngine.ApplyInOrder | apps/engine/src/state/engine.rs:350-371 | Touches only the event's own token: asks for its due snapshots, then folds the event; the token stays in order exactly when the trade is not before the latest time asked. |
| StateEngine.StateEngine.FlushReorder | apps/engine/src/state/engine.rs:330-348 | Empties the live buffer: exactly the events before the last applied one are dropped, counted late and marked, and the rest are applied; no trade is lost. When all of them are late, which every push keeps so, nothing is applied. |
| StateEngine.StateEngine.PushEvent | apps/engine/src/state/engine.rs:192-213 | An event not before the last applied one is applied, whatever waits in the live buffer, all of which is then dropped, counted late and marked; a late one changes nothing of any token: in replay it only marks its token, live it waits in the buffer, from which nothing is ever applied. Trades folded, parked, buffered, dropped and displaced always add up, every newly dropped trade that names its token marks it, and only an event of the same order displaces one. |
| StateEngine.StateEngine.Forget | apps/engine/src/state/engine.rs:300-304 | Forgets one token and its index entries, restarts the event order, clears the live buffer, and frees no parked trade. |
| StateEngine.StateEngine.RebuildToken | apps/engine/src/state/engine.rs:293-323 | The token then holds exactly the trades of the events given, in event order, none of them late, and, if trades were parked, those of them that it freed; every other token is untouched. What waited in the live buffer is cleared. |
| StateEngine.StateEngine.MaybeEvict | apps/engine/src/state/engine.rs:1012-1028 | Evicts at the cold age and only then, drops the windows of a hot token at the hot age, and keeps the books. |
| StateEngine.StateEngine.FinishUntil | apps/engine/src/state/engine.rs:251-259 | Every token's due snapshots are taken before it can be evicted; tokens not in memory are untouched. |
| EngineBooks.IndexingFrees | apps/engine/src/state/engine.rs:817-831 | Indexing a token makes only trades of that token resolvable: so retrying parked trades never creates another token, and the recursion ends. |
| TokenBooks.CountTradeLog | apps/engine/src/state/engine.rs:1031-1057 | The loop over the log counts exactly the trades up to a time, with their distinct buyers and sellers. |
| TokenBooks.AggregateKeeps | apps/engine/src/state/engine.rs:589-631 | Folding a trade keeps counts, trader sets, per-trader counts and saturating volumes equal to those of the trades folded. |
| TokenBooks.AggUnique | apps/engine/src/state/engine.rs:589-631 | Two aggregates of the same trades are equal field by field. |
| TokenBooks.SnapshotIsExact | apps/engine/src/state/engine.rs:910-1004 | A snapshot stamped later than every trade, of a token whose trades came in time order, holds exactly the trades before its stamp. |
| TokenBooks.EmitKeeps | apps/engine/src/state/engine.rs:1000-1004 | Emitting the next due snapshot keeps the stamps equal to the due times, the milestone tags right, and every snapshot exact. |
| TokenBooks.TradeKeeps | apps/engine/src/state/engine.rs:558-663 | Folding a trade keeps the token's books, and its order exactly when the trade is at the latest time asked for. |
| Rolling.Window.Expire | apps/engine/src/state/rolling.rs:97-173 | Expiry drops exactly the too-old front of the deque; counts and per-trader multiplicities stay those of what is left; every volume is lowered by what was dropped, down to zero, and volumes that were right stay right exactly when the expiry is safe. |
| Rolling.Window.Push | apps/engine/src/state/rolling.rs:108-137 | A push keeps every counter the fold over the deque: a right volume stays right, saturating or not. |
| Rolling.Window.Snapshot | apps/engine/src/state/rolling.rs:175-212 | The incremental snapshot is the one recomputed over the deque exactly when every volume is the clamped total of the deque; everything but the volumes and their difference always is, and the volumes reported are the counters. |
| Rolling.Window.SnapshotAsOf | apps/engine/src/state/rolling.rs:214-280 | The from-scratch snapshot is the recomputation over the trades inside the window at the query time. |
| Rolling.RollingWindows.Push | apps/engine/src/state/rolling.rs:303-311 | Expires and pushes all seven windows, and nothing when disabled; each window that was right stays right exactly when its step is safe. |
| Rolling.RollingWindows.ExpireAll | apps/engine/src/state/rolling.rs:313-320 | Expires all seven windows, and nothing when disabled; each window that was right stays right exactly when its expiry is safe. |
| Rolling.RollingWindows.SnapshotsAsOf | apps/engine/src/state/rolling.rs:332-343 | At a time not before the last push or expiry, the seven windows of every trade ever pushed; empty windows when disabled. |
| Rolling.RollingWindows.Snapshots | apps/engine/src/state/rolling.rs:322-330 | Each incremental snapshot is the recomputed one exactly when its window is right; seven empty ones when disabled. |
| Rolling.RollingWindows.DropTicks | apps/engine/src/state/rolling.rs:353-357 | Gives up the deques for good: every later snapshot is empty. |
| Schedule.DueSeqMembers | apps/engine/src/state/schedule.rs:42-73 | The due times of an interval are strictly increasing and are exactly the milestones and band grid points inside it. |
| Schedule.DueSplits | apps/engine/src/state/schedule.rs:42-73 | Asking in two steps gives the same due times as asking once. |
| Schedule.SkipAhead | apps/engine/src/state/schedule.rs:59-62 | Where its subtraction fits 64 bits, the skip-ahead lands on the first grid point after `from` exactly when the start is not negative or its product fits 64 bits as well. |
| Schedule.SkipAheadOffGrid | apps/engine/src/state/schedule.rs:59-62 | A concrete start, origin and step for which the saturating product leaves the grid. |
| Schedule.BandTimes | apps/engine/src/state/schedule.rs:55-69 | The stepping loop of one band collects exactly that band's grid points in the interval. |
| Schedule.MilestoneTimes | apps/engine/src/state/schedule.rs:48-54 | The milestone loop collects exactly the milestones in the interval. |
| Schedule.DueTimes | apps/engine/src/state/schedule.rs:42-73 | Collecting, sorting and removing repeats gives the due times of the interval, each once and in order. |
| Schedule.WholeSchedule | apps/engine/src/state/schedule.rs:94-100 | Once a token is as old as the whole schedule, its emitted stamps are its whole schedule, whatever is asked later. |
| StateEngine.DefaultIsModest | apps/engine/src/state/schedule.rs:17-40 | The default schedule is one the engine is verified for. |
| Schedule.DefaultsCover | apps/engine/src/state/schedule.rs:17-40 | The default schedule ends by the default eviction age, and its steps are positive. |
| Domain.NewKeyIsNormal | apps/engine/src/state/engine.rs:29-38 | Building a key from a built key's own text gives the same key: address normalisation is idempotent. |
| Domain.OrderIsTotal | apps/engine/src/state/order.rs:7-66 | The event order is a strict total order. |
| Domain.SortEventsFacts | apps/engine/src/state/engine.rs:305-306 | Sorting a token's events gives a permutation of them in event order. |
| Amounts.SignedAddIsAddition | apps/engine/src/sim/position.rs:312-333 | Adding signed strings is integer addition exactly when the sum fits a signed word, and canonical inputs never give a negative zero. |
| Amounts.MedianIgnoresOrder | apps/engine/src/state/amt.rs:67-80 | The median of the trade sizes depends only on the multiset of sizes, not on arrival order. |
| Amounts.CanonicalEquality | apps/engine/src/lab/reconcile.rs:65-78 | On canonical values, comparing sign and magnitude is comparing integers. |
| Impact.ImpactWithin | apps/engine/src/sim/impact.rs:191-214 | For every limit, an order passes exactly when its scaled price gap, clamped to a word, is less than one basis point of the reference more than the limit; the largest limit passes everything. |
| Impact.ForwardIsLeast | apps/engine/src/sim/impact.rs:257-259 | The curve's output is the least number of tokens whose removal does not raise the product. |
| Impact.FeesConserve | apps/engine/src/sim/impact.rs:246-249 | At rates of at most 10000 basis points, tax, fee and net add up to the quote offered; at any rates the net never exceeds it. |
| Impact.BuyStatusMeaning | apps/engine/src/sim/impact.rs:295-308 | A buy is filled exactly when the whole curve output is delivered and its ten-thousandfold fits a word; a delivering buy is never "no fill". |
| Impact.BuyBounds | apps/engine/src/sim/impact.rs:241-323 | Tokens never exceed the reserve or a nonzero cap, the charge never exceeds the offer, a short fill is charged less than the net quote, and without adverse movement the buy delivers the curve's output up to the cap. |
| Impact.BuyIsFillOrNothing | apps/engine/src/sim/impact.rs:241-323 | A buy is a fill with tokens and an impact within its limit, or all its amounts are zero with a reason. |
| Impact.SellBounds | apps/engine/src/sim/impact.rs:319-365 | A sell fills whole or not at all, never returns more than the reserve or a nonzero cap, and at rates of at most 10000 basis points proceeds, fee and tax add up to the curve's capped output unless adverse movement takes some. |
| Impact.RoundTripExact | apps/engine/src/sim/impact.rs:246-346 | Selling some tokens returns at most a given quote exactly when an integer inequality on the reserves holds. |
| Impact.RoundTripWithin | apps/engine/src/sim/impact.rs:246-346 | Selling what a net quote bought, or less, returns at most it, once vs² is at most 2·a²·vt and vs·vt fits a word. |
| Execution.LatestIsLatest | apps/engine/src/sim/exec.rs:161-172 | The book answers with the last listed of the latest matching snapshots not after the time, and with none only if none matches. |
| Execution.SimulateSide | apps/engine/src/sim/exec.rs:176-294 | The loop that overwrites one result computes the result that NoLookahead, FirstFillOrNothing and LastAttemptIsLatest speak of. |
| Execution.LastAttemptIsLatest | apps/engine/src/sim/exec.rs:213-224 | With retries that do not go back in time, the last attempt bounds every fill time. |
| Execution.DefaultHorizon | apps/engine/src/sim/exec.rs:190-215 | With the default delays and retries, every attempt of an order, emergency or not, is over 9200 ms after its decision. |
| Position.SimulatedPosition.constructor | apps/engine/src/sim/position.rs:63-118 | Opens with the whole fill as inventory and cost. |
| Position.SimulatedPosition.ApplyExit | apps/engine/src/sim/position.rs:122-192 | Sells no more than is left, conserves inventory, closes exactly when nothing is left, never reopens; a failed or empty exit leaves only a note. |
| Position.SimulatedPosition.Mark | apps/engine/src/sim/position.rs:198-225 | Follows the best and worst exit value of an open position and never touches the ledger. |
| Position.SimulatedPosition.ForceEnd | apps/engine/src/sim/position.rs:244-269 | Ends an open position without selling, and leaves any other untouched. |
| Position.SimulatedPosition.EndSessionOpen | apps/engine/src/sim/position.rs:228-242 | Ends the session of an open position without selling. |
| Position.ReturnIsSigned | apps/engine/src/sim/position.rs:277-290 | A return has the sign of the gain and is never below the whole cost. |
| Position.SignalsAreAffordable | apps/engine/src/sim/policy.rs:208-249 | What a policy asks to sell is held; it is everything, or one of at most three partial exits, each leaving something. |
| Position.ShippedScales | apps/engine/src/sim/policy.rs:251-282 | Every shipped exit policy scales out at most three times and never sells everything in a stage. |
| Position.EntryPoliciesNest | apps/engine/src/sim/policy.rs:65-95 | Entry needs a passing verdict and an eligible candidate past its delay; a slower or random policy enters only where the first-eligible one would, and waiting never turns an entry into a refusal. |
| Ledger.StoredIsCanonical | apps/engine/src/sim/position.rs:161-171 | No run of exits from zero stores a negative zero. |
| Reconcile.SumLegs | apps/engine/src/lab/reconcile.rs:85-99 | The saturating pass gives the clamped totals. |
| Reconcile.ReconcilePosition | apps/engine/src/lab/reconcile.rs:80-133 | Totals, oversell, remaining inventory, profit and every flag, in terms of the fills and the stored position. |
| Harness.TryEnter | apps/engine/src/sim/harness.rs:101-176 | Enters a token at most once, by the entry rule, opens a position exactly on a fill, and does what the run on values does. |
| Harness.MarkAll | apps/engine/src/sim/harness.rs:178-198 | Marks every open position of the token and asks for exactly the exits its policy signals, in order, all affordable and of different positions. |
| Harness.ApplyAsks | apps/engine/src/sim/harness.rs:199-254 | Places each exit in order; every fill sells exactly what was asked, so the clamp never fires. |
| Harness.EndData | apps/engine/src/sim/harness.rs:256-269 | No position stays open at the end of the data, each ends by whether what it holds could be sold, and no ledger changes. |
| DatasetGate.NoViolationsIsSorted | apps/engine/src/historical/validate.rs:218-224 | Comparing neighbours finds no violation exactly when the whole stream is sorted. |
| DatasetGate.StreamingScan.Push | apps/engine/src/historical/validate.rs:188-258 | Every counter, set and per-mint record is that of the stream so far, duplicates included. |
| DatasetGate.StreamingScan.Finish | apps/engine/src/historical/validate.rs:260-315 | Every coverage number counts the mints that meet its criterion. |
| MilestoneScheduler.DecodeKeyId | apps/engine/src/live.rs:44-46 | An id decodes to the key it was made from, even when the token contains bars. |
| MilestoneScheduler.LiveMilestoneScheduler.Register | apps/engine/src/live.rs:49-68 | A token is registered once; each of its milestone ages is queued once at its due time. |
| MilestoneScheduler.LiveMilestoneScheduler.PopDue | apps/engine/src/live.rs:70-91 | Hands out exactly what is due and not yet handed out, soonest first; everything left is due later; heap, queued set and counters stay in step. |

## Left out

- Amounts are modelled as the 256-bit values their decimal strings denote; parsing and printing the strings is not modelled.
- The 64-bit and 32-bit widths of event counters are not modelled: counts are unbounded.
- A token's state is a value in the engine's map, replaced when the code changes it through a mutable reference; the events, orders and snapshots are values too.
- Market reserves, last-trade fields, wallet snapshots, creator totals, versions and fingerprints of a token snapshot; creator volumes inside the windows are modelled, but convergence and cadence say nothing about them, since they depend on whether the creator was known when the trade arrived.
- Schedules are required to have positive, calendar-sized steps and ages (the default has), as the division and stepping in `due_times` need.
- Live mode: the wall clock, and as-of volumes of overdue live milestones, which the code does not guarantee.
- OrderedReplay.Run: concerns streams whose events name their tokens.
- Replay.Converge: concerns events that name their tokens and no clock tick that evicts a token in between; store reads that fail or that run concurrently with a push are not modelled, though what a rebuild finds in the store is arbitrary.
- Cadence.SameSnapshotsExactly: leaves out the windows from the hot age on, since when they are given up depends on the ticks, and creator volumes; of two runs both of which have something due in a later stay, `SameStampsExactly` compares the stamps, and `SameStaysAlike` the accounts when the stays are the same.
- StateEngine.StateEngine.FlushReorder: does not state the order in which timely events of the buffer are applied, because every push keeps the buffer free of them.
- Foresight.LooksAheadExactly: concerns retries whose delay is not negative.
- `mark_already_emitted`, `note_orphan`, `by_ms` and `finish_all_milestones`: small helpers around the modelled state.
- Seeded failures and the random control entry are an arbitrary function of token, time, attempt and rate; the hash behind it is not modelled.
- Reconcile.ReconcileOwnFills: the drift bound is stated for amounts whose products fit 256 bits and exits that do not oversell; outside, saturation makes the two profits unrelated. Inventory and closing need no bound.
- The difference of two returns in the trailing policies is not wrapped at 64 bits.
- Run identifiers, timestamps of creation, feature and security identifiers, cost fields other than fees, and the research-valid flag of a run.
- Dataset gate: hour gaps, manifests and the list of check messages, which do not affect the verdict.
- Networking, storage, decoding, metrics, the candidate engine, features, descriptive statistics and the command line.
