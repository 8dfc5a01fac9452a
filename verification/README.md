# gmo-coin-bot core, modelled in Dafny

gmo-coin-bot is an automated FX trading bot for the GMO Coin exchange. Every
day it reads a plan of trades (`trades.csv`: side, pair, entry time, exit time,
lot). It resolves the times onto the calendar, enters each trade behind a spread
gate with a bounded number of order attempts, watches the open positions for
stop-loss and take-profit, and closes each position at its exit time with a
bounded retry and a manual fallback. At 19:00 it reports the day's closed
results. Around this sit the request layer and the bookkeeping:

- an adaptive rate limiter and a retry policy for the exchange's REST API;
- a five-second ticker cache;
- automatic position sizing from the account balance;
- a per-symbol daily volume cap;
- profit arithmetic;
- an orphan-position sweep against the plan's trading windows;
- performance metrics;
- a guarded automatic restart;
- a health check;
- configuration validation.

This project models that core of `main.py` in Dafny 4.11 and proves what it
promises. Each component is a module in its own file:

- `common.dfy` (module `Common`): options, sides, pips, whitespace stripping, ASCII case mapping
- `clock.dfy` (module `Clock`): local time as integer seconds, `%H:%M:%S` parsing and formatting
- `api_client.dfy` (module `ApiClient`): rate limiter state machine, request pacing, retry policy, signed text
- `ticker_cache.dfy` (module `TickerCache`): the TTL ticker cache (a class over the cache dictionary)
- `sizing.dfy` (module `Sizing`): automatic lot sizing
- `ledger.dfy` (module `Ledger`): the daily volume ledger of order submission (a class)
- `profit.dfy` (module `Profit`): pip and amount profit
- `schedule.dfy` (module `Schedule`): plan rows: filtering, side and pair parsing, day-crossing resolution and sort, trading windows
- `monitor.dfy` (module `Monitor`): the stop-loss / take-profit pass over the monitored positions (a class)
- `executor.dfy` (module `Executor`): the per-trade work: set-up, entry retry loop, exit retry loop
- `results.dfy` (module `Results`): the 19:00 partition of results (a class) and the performance metrics
- `supervisor.dfy` (module `Supervisor`): restart guard (a class), health verdict, configuration validation

State that the bot updates in place is modelled as classes whose methods name
what they modify:
- the rate-limit globals: `ApiClient.Client`;
- `ticker_cache`: `TickerCache.Cache`;
- `symbol_daily_volume`: `Ledger.VolumeLedger`;
- `positions_to_monitor`: `Monitor.Watch`;
- `trade_results`: `Results.TradeLog`;
- the restart counters: `Supervisor.RestartGuard`.

Every method of these classes is proved against a specification function or a
ghost history, and the specification functions carry the lemmas. The loops of
the source are `while` loops with invariants:
- the retry loop;
- the entry and exit retry loops;
- the list removals;
- the 19:00 split;
- the running-peak drawdown loop;
- the validation loops.

Conventions:
- **Time** is an `int` of local seconds (`Clock.Day` = 86400, a day starting at a multiple of it). Rate-limiter times are `real` seconds.
- **Outside answers are parameters:**
  - exchange replies, as datatypes such as `TickerReply`, `Attempt`, `EntryAttempt` and `SubmitReply`;
  - random jitter, as a value in its range;
  - probes of disk, memory and files.
- **Money and prices** are `real`; `round(…, 2)` is not modelled (see Left out), including the rounding of the open profit that the stop-loss and take-profit test compares.
- **Plan files** are given as their data rows: the header line that `next(reader)` consumes (main.py:1752, main.py:3064) is already removed.

## Model

| member | source | states |
|---|---|---|
| ApiClient.Adjusted | main.py:328-343 | From within bounds (limit 5..20, streak 0..2) the new state stays within bounds; a throttle code never raises the limit, any other code never lowers it nor raises the streak; the third throttle in a row drops the limit by 5 (not below 5) and clears the streak |
| ApiClient.AdjustAllAppend | main.py:328-343 | Adjusting over a sequence of codes and then one more equals one more adjustment of the result |
| ApiClient.AdjustAllKeepsBounds | main.py:328-343 | Any sequence of status codes keeps the limiter within its bounds |
| ApiClient.ThreeThrottlesLowerOnce | main.py:332-337 | Three throttle codes in a row lower the limit by exactly 5 (floor 5) and leave the streak where it was |
| ApiClient.QuietCallsRecover | main.py:338-343 | After enough non-throttle codes the streak is 0 and the limit has risen by one per code once the streak was cleared, capped at 20 |
| ApiClient.ThrottleThenRecoverExample | main.py:328-343 | From 20/0, three throttles give 15/0, and one other error code after them gives 16/0 |
| ApiClient.GateSleep | main.py:318-325 | The pause is never negative, makes the time since the last request of that verb at least 1/limit, and is zero when that much time has already passed |
| ApiClient.Backoff | main.py:399-407 | The retry pause min(2^attempt + r, 60) lies in [1, 60] and never exceeds 2^attempt + r |
| ApiClient.AttemptsMade | main.py:383-403 | Between 1 and 3 attempts are made; every attempt before the last was retryable; fewer than 3 means the last one was not; exactly 3 iff the first two were retryable |
| ApiClient.RetryOutcome | main.py:383-410 | "Max retries exceeded" is raised iff all three attempts were retryable; a returned reply is one of the attempts, is not retryable, and never carries the throttle code with a non-zero status |
| ApiClient.ErrorCodes | main.py:394-397 | Only attempts with a non-zero status feed the limiter, so at most one code per attempt |
| ApiClient.ErrorCodesSpec | main.py:394-397 | The limiter sees no code exactly when no reply has a non-zero status, and every code it sees is the code of such a reply |
| ApiClient.ErrorCodesAppend | main.py:383-397 | The codes of two runs of attempts are the codes of the first followed by those of the second: one per non-zero reply, in attempt order |
| ApiClient.ErrorCodesOne | main.py:394-397 | One attempt passes its code exactly when it is a reply with a non-zero status |
| ApiClient.CountApiErrors | main.py:396-406 | The error counter grows by at most one per attempt |
| ApiClient.CountApiErrorsSpec | main.py:396-406 | The counter does not move exactly when no attempt fails, and grows by the number of attempts exactly when all fail |
| ApiClient.CountApiErrorsAppend | main.py:383-406 | The count over two runs of attempts is the sum of their counts |
| ApiClient.CountApiErrorsOne | main.py:396-406 | One attempt counts one exactly when it raised a requests exception or got a non-zero status |
| ApiClient.Client.constructor | main.py:312-343 | The limiter starts at 20/0 and both request clocks at 0 |
| ApiClient.Client.AdjustRateLimit | main.py:328-343 | The globals become exactly `Adjusted` of the old state, and stay within bounds |
| ApiClient.Client.RateLimit | main.py:312-326 | The pause is `GateSleep` for the verb's own clock; only that verb's clock moves, to the end of the pause; consecutive requests of a verb are at least 1/limit apart |
| ApiClient.Client.GatedAttempt | main.py:384-406 | One attempt passes the gate of its verb, then extends the limiter state and the error count exactly as the codes and errors of the attempts so far say |
| ApiClient.Client.RetryRequest | main.py:375-410 | The result is `RetryOutcome`; the limiter is adjusted by exactly the codes of the attempts made; the call counter rises by one and the error counter by the failed attempts; there is one pause per attempt made before the last, and three when all three attempts were retried; each pause follows a retryable attempt and is `Backoff` of its attempt number |
| ApiClient.Timestamp | main.py:345-350 | The header timestamp is all digits, longer than three |
| ApiClient.DecimalRoundTrip | main.py:350 | Reading back the decimal spelling of a number gives the number |
| ApiClient.TimestampIsMilliseconds | main.py:350 | The timestamp's value is the second count times 1000 |
| ApiClient.SignedTextDeterminesHeader | main.py:358 | The signed text timestamp+method+path+body determines the timestamp, the verb and path+body |
| Clock.DayStart | main.py:1799 | The start of the local day holding an instant: at most the instant, less than a day before it, a multiple of the day length |
| Clock.TimeOfDay | main.py:1799 | The seconds since midnight, below one day, adding back to the instant |
| Clock.HourOf | main.py:1262 | `.hour` is below 24 |
| Clock.DayStartOfOffset | main.py:1799 | An instant placed at a time of day on a given date has that date and that time of day |
| Clock.DayStartNextDay | main.py:1808 | One day later is the same time of day on the next date |
| Clock.ParseClock | main.py:1759-1760 | A time that parses is a time of day (below 86400) |
| Clock.FormatClock | main.py:1830-1831 | strftime('%H:%M:%S') gives eight characters |
| Clock.ParseFormatClock | main.py:1246-1249 | Parsing a formatted time of day gives it back |
| Common.PipValue | main.py:844-852 | The pip is positive: 0.01 exactly when the symbol contains "JPY", 0.0001 otherwise |
| Common.StripSpec | main.py:1289 | str.strip(): the result starts and ends with a character str.isspace() refuses, ASCII or Unicode (U+3000 included), and is the middle piece of the input |
| Common.Lower | main.py:1289 | str.lower() on ASCII: no capital is left, each capital becomes its own small letter, every other character is kept in place |
| Common.Upper | main.py:108 | str.upper() on ASCII: no small letter is left, each small letter becomes its own capital, every other character is kept in place |
| Common.LowerIdempotent | main.py:1289 | Lower-casing an already lower-cased cell changes nothing |
| Common.LowerUpper | main.py:1289 | Lower-casing forgets the case: a cell upper-cased first lower-cases to the same text |
| TickerCache.Stale | main.py:418 | The symbols refetched are exactly the requested ones whose expiry (0 when absent) is before now |
| TickerCache.Stamp | main.py:420-427 | Every symbol in the reply is stored with expiry now+5; symbols not in the reply keep their entry |
| TickerCache.StampLastQuoteWins | main.py:420-427 | Every answered symbol is stored with the bid and ask of its last quote in the reply |
| TickerCache.Served | main.py:429 | The answer holds exactly the requested symbols present in the cache, with the cached entry |
| TickerCache.Cache.constructor | main.py:413 | The cache starts empty |
| TickerCache.Cache.GetTickersOptimized | main.py:416-429 | The fetch asks for exactly the stale symbols; with nothing stale or a failed fetch the cache is unchanged; otherwise it becomes `Stamp` of the old cache; the call raises iff a needed fetch raised; the answer is `Served` of the new cache |
| TickerCache.ServedIsFreshUnlessOmitted | main.py:416-429 | Every entry served is fresh, except a stale one whose symbol the reply left out, which is served as it was |
| TickerCache.AnsweredSymbolIsServedFresh | main.py:420-429 | Any stale requested symbol that the reply answers is served with the prices of its last quote in the reply and expiry now+5 |
| TickerCache.NoRefetchWithinTTL | main.py:418-425 | A symbol refreshed at `now` is not refetched again within five seconds |
| Sizing.TruncSpec | main.py:550 | int() truncates toward zero: the integer part, of the same sign, less than one away |
| Sizing.FindQuote | main.py:510-518 | None is picked exactly when the reply has no quote for the symbol |
| Sizing.FindQuoteFirst | main.py:510-518 | The quote picked is the first one for the symbol |
| Sizing.Clamp | main.py:578-586 | The lot lies in [1, 500000] and an in-range value is kept |
| Sizing.CrossRate | main.py:555-563 | A USD/JPY conversion rate, when there is one, is positive |
| Sizing.CrossRateSpec | main.py:555-563 | The conversion rate is the bid of the first USD_JPY quote exactly when that bid is positive; a raised fetch or a reply without USD_JPY gives none |
| Sizing.CalcAutoLot | main.py:482-598 | A lot, when computed, lies in [1, 500000] and the inputs passed validation; a non-positive balance is refused first |
| Sizing.ValidationOrder | main.py:491-501 | Leverage, symbol and side are checked in that order after the balance, each refusal exactly when the earlier checks pass and this one fails |
| Sizing.YenPairFormula | main.py:520-550 | For a JPY pair the lot is clamp(int(balance × risk × 0.95 × leverage / rate)), rate the ask for BUY and the bid for SELL |
| Sizing.RateRefusals | main.py:503-527 | After validation: a raised symbol fetch refuses with TickerFailed; no quote for the symbol refuses with NoRateFor exactly then; a non-positive rate in its first quote refuses with BadRate exactly then; for a pair without JPY a raised USD_JPY fetch refuses with TickerFailed exactly then |
| Sizing.CrossPairFormula | main.py:551-566 | For another pair the lot is clamp(int(balance × risk × 0.95 / u × leverage / rate)), u the positive bid of the first USD_JPY quote |
| Sizing.CrossPairFallback | main.py:567-575 | Without a positive bid in the first USD_JPY quote the lot of another pair is clamp(int(balance × risk × 0.95 × leverage / rate)) |
| Sizing.ScaledByCross | main.py:563-575 | Converting through a cross rate divides the undivided quantity by it |
| Sizing.MonotoneInBalance | main.py:482-598 | With everything else fixed, a larger balance never gives a smaller lot |
| Sizing.MonotoneInLeverage | main.py:482-598 | With everything else fixed, a larger leverage still gives a lot, and never a smaller one |
| Sizing.UsdJpyExample | main.py:520-586 | 100000 yen, leverage 10, risk 1, USD/JPY ask 150 gives 6333 lots |
| Ledger.EffectiveLeverage | main.py:675 | `leverage or LEVERAGE`: a missing or zero leverage is replaced by the default |
| Ledger.PlanOrder | main.py:609-686 | A size sent never takes the symbol's day total past the cap; an explicit size passes iff it fits and is sent as is; no size is sent exactly when none is given and autolot is off; an automatic size lies in [1, 500000] |
| Ledger.AutoSizedOrder | main.py:617-686 | With autolot and no size: a missing or malformed balance, a non-positive balance and a sizing error each stop the order with their own error; otherwise the size sent is calc_auto_lot's lot when it fits the allowance, and the order stops with the current total and that lot when it does not |
| Ledger.NextMidnight | main.py:1719-1726 | The reset fires at the next local midnight: after now, at most a day later, at a day boundary |
| Ledger.VolumeLedger.constructor | main.py:255 | The ledger starts empty |
| Ledger.VolumeLedger.SendOrder | main.py:600-750 | The request goes out iff `PlanOrder` passes; success needs an accepted reply; on success with a size only that symbol's total grows, by exactly that size; otherwise nothing changes; every other symbol is untouched; the cap invariant holds |
| Ledger.VolumeLedger.ResetDaily | main.py:1728-1730 | The ledger is emptied |
| Ledger.VolumeLedger.Commit | main.py:744-747 | The symbol's entry grows by the size and the booking is recorded, keeping the ledger equal to the sum of its bookings and every booking within the cap |
| Ledger.VolumeAfterIsBooked | main.py:744-747 | The ledger's entry for a symbol is the sum of the sizes booked for it since the reset |
| Ledger.DayTotalWithinCap | main.py:609-616 | When every booking passed the cap check, the sizes booked for a symbol since the reset add up to at most the cap (or to nothing) |
| Ledger.LedgerWithinCap | main.py:680-686 | A ledger in its invariant, as every send_order and reset leaves it, holds at most the cap for each symbol (or nothing) |
| Profit.ProfitPips | main.py:844-852 | Pips times the pip is the favourable move; positive exactly when the exit is above the entry for BUY and below it otherwise; zero exactly when they are equal |
| Profit.SideSwapNegates | main.py:844-852 | Swapping BUY for SELL negates the pips |
| Profit.CurrentProfitPips | main.py:854-880 | A missing or malformed quote is worth 0; a long position is valued at the bid and a short one at the ask |
| Profit.CurrentIsClosingProfit | main.py:854-880 | The open profit is the profit of closing now at the price that closes the position |
| Profit.AmountIsMoveTimesSize | main.py:882-917 | The amount is the move times the size, in yen for a JPY pair, converted at the USD/JPY bid otherwise, unconverted when that rate is unavailable |
| Profit.AmountSignFollowsPips | main.py:882-917 | For a positive size the amount is positive exactly when the pips are |
| Schedule.UsableRowsSpec | main.py:1754-1766 | The rows kept are exactly the usable ones (six cells, side, pair and both times present and parseable), each as often as in the file |
| Schedule.ReadPlan | main.py:1754-1766 | The reading loop keeps exactly `UsableRows` |
| Schedule.ParseSide | main.py:1289-1298 | A side is recognised iff the stripped, lower-cased cell is one of 買/long/l/売/short/s; BUY exactly for the first three |
| Schedule.ParseSideIgnoresCase | main.py:1289 | Upper-casing the cell does not change the side read |
| Schedule.SlashToUnderscore | main.py:1316 | No slash is left: each slash becomes an underscore and every other character stays in its place |
| Schedule.NormalizePair | main.py:1314-1322 | The pair never contains '/'. A slashed cell keeps its length and every other character in place; a six-letter name (USDJPY, EURUSD, …) keeps its first three letters, then '_', then its last three; any other name is kept as stripped |
| Schedule.UsdJpySlashed | main.py:1314-1316 | "USD/JPY" becomes "USD_JPY" |
| Schedule.IdeographicSpacePair | main.py:1314-1316 | A pair cell ending in an ideographic space (U+3000) is stripped like an ASCII blank and becomes "USD_JPY" |
| Schedule.UsdJpyRun | main.py:1319-1320 | "USDJPY" becomes "USD_JPY" |
| Schedule.ExchangeNotationKept | main.py:1321-1322 | A clean name without '/' and not of six letters is kept |
| Schedule.ResolveEntry | main.py:1799-1814 | The entry is today's instant of the clock time or one day later; later exactly when that instant precedes the last trade time or now; never before now |
| Schedule.ResolveExit | main.py:1818-1825 | The exit is strictly after the entry and at most a day later |
| Schedule.ResolvedClocksKept | main.py:1799-1826 | Resolution keeps the clock times of entry and exit |
| Schedule.Resolve | main.py:1796-1833 | A resolved row enters no earlier than now and exits after it enters, within a day; side and pair cells are kept |
| Schedule.ResolvedAll | main.py:1796-1834 | Every resolved trade satisfies those bounds; no row yields more than one |
| Schedule.InsertKeepsOrder | main.py:1836 | Inserting into a sorted plan keeps it sorted and adds exactly that trade |
| Schedule.InsertSameEntry | main.py:1836 | Inserting a trade into a sorted plan puts it after every trade with the same entry and leaves their order alone |
| Schedule.SortByEntry | main.py:1836-1838 | The plan is sorted by entry, is a permutation of its input, and, as the sort is stable, trades with equal entries stay in plan order (together these fix the result) |
| Schedule.ResolveRows | main.py:1796-1834 | The resolution loop builds exactly `ResolvedAll` |
| Schedule.ResolvePlan | main.py:1796-1838 | The plan is sorted by entry, a permutation of the resolved rows, keeps rows with equal entries in plan order (so the earlier row is traded first), and every entry/exit pair satisfies the resolution bounds |
| Schedule.TextLessTransitive | main.py:1781 | String comparison is transitive |
| Schedule.MaxText | main.py:1781 | max() by exit-time text returns an element no other element exceeds |
| Schedule.RecordedExits | main.py:1778 | Only results with a non-empty exit time are considered |
| Schedule.LastTradeTime | main.py:1775-1793 | A last trade time, when found, lies within yesterday |
| Schedule.LastExitNeverMovesEntry | main.py:1788-1812 | Since the last trade time is always yesterday, it never moves an entry that the comparison with now would not move |
| Schedule.WindowAsWritten | main.py:3067-3084 | The window of a row as written is non-empty and spans at most a day |
| Schedule.SweepMissesLiveOvernightTrade | main.py:3080-3082 | An overnight row 22:00-02:30 seen at 02:10 gets a window in the future (as-written half of finding B) |
| Schedule.TradeWindow | main.py:3067-3084 | The corrected window is non-empty and spans at most a day |
| Schedule.TradeWindowCoversLiveTime | main.py:3072-3082 | The corrected window holds now exactly when the row's trade is live at that time of day |
| Schedule.Windows | main.py:3055-3089 | Each row gives at most one window, each non-empty and at most a day long |
| Schedule.LoadTradesSchedule | main.py:3055-3089 | The reading loop builds exactly `Windows` |
| Schedule.IsInTradesSchedule | main.py:3092-3099 | True iff some window holds the instant, both ends included |
| Schedule.SweepCloses | main.py:3156-3157 | The sweep closes everything iff there are open positions and no window holds now |
| Monitor.Decide | main.py:1196-1209 | Stop-loss iff the stop is set and pips <= -stop; take-profit iff not that, the target is set and pips >= target; never both |
| Monitor.HoldBand | main.py:1196-1209 | With both limits set a position is held exactly while -stop < pips < target |
| Monitor.PriceMap | main.py:1163-1172 | The price table holds exactly the quoted symbols |
| Monitor.PriceMapLastQuoteWins | main.py:1164-1169 | The table holds the last quote of each symbol |
| Monitor.Selected | main.py:1175-1209 | The positions marked for removal are positions of the list |
| Monitor.Survivors | main.py:1176-1221 | Every position not closed in the pass stays |
| Monitor.SelectedAppend | main.py:1176-1209 | Marking is done position by position in list order |
| Monitor.RemoveFirst | main.py:1221 | list.remove leaves an absent item's list unchanged and shortens the list by one otherwise |
| Monitor.RemoveFirstCount | main.py:1221 | list.remove takes away one occurrence, or nothing when the item is absent |
| Monitor.RemoveEachCount | main.py:1219-1224 | Removing a list of items takes away exactly their multiset |
| Monitor.RemoveEachAppend | main.py:1219-1224 | Removing one more item is one more list.remove |
| Monitor.RemoveEachKeepsOtherTrades | main.py:1459-1466 | Removing positions of one trade leaves every other trade's positions, in order |
| Monitor.RemovalLeavesSurvivors | main.py:1175-1224 | On a list of distinct positions, removing the marked ones leaves exactly the survivors, in order |
| Monitor.CollectPrices | main.py:1163-1172 | The price loop builds exactly `PriceMap` |
| Monitor.SelectToClose | main.py:1176-1216 | The pass aborts iff some close raises; otherwise it marks exactly `Selected` |
| Monitor.Watch.constructor | main.py:1236 | The monitored list starts empty |
| Monitor.Watch.MonitorAndClose | main.py:1144-1228 | An empty list or a failed fetch changes nothing; an aborted pass changes nothing; otherwise the list loses exactly the positions closed |
| Executor.ReentryAsWritten | main.py:1244-1272 | As written, a re-read trade that is taken enters no earlier than now and exits within a day of entering (as-written half of finding A) |
| Executor.TomorrowTradeSkippedAsWritten | main.py:1806-1812 | A row resolved to tomorrow after 06:00 is skipped by the re-read as written, although the corrected re-entry takes it at its resolved instants |
| Executor.PastClockSkippedAsWritten | main.py:1257-1272 | As written, a clock time already past after 06:00 is skipped |
| Executor.AsWrittenAgreesSameDay | main.py:1244-1272 | When resolution kept the trade on today's date, the as-written re-read agrees with it |
| Executor.Reentry | main.py:1257-1272 | Corrected: a resolved trade is taken at its resolved instants, and skipped only when its entry has passed |
| Executor.ResolvedTradeIsTaken | main.py:1799-1833 | A trade taken up when it was resolved is never skipped by the corrected re-entry |
| Executor.PrepareTrade | main.py:1287-1322 | Set-up succeeds iff the side parses and the lot is blank or a number; it carries the parsed side and the normalised pair; no lot exactly for a blank cell; leverage 18 exactly for a blank lot with autolot off |
| Executor.Opens | main.py:1331-1393 | A position is opened only by an attempt that passed the quote and spread checks |
| Executor.EntryRun | main.py:1326-1413 | The loop stops at the first opening or the first ticker exception; every attempt before it failed without either; exhaustion means no attempt opened or raised |
| Executor.EntryLoop | main.py:1326-1413 | The loop's result is `EntryRun` over the allowed attempts; the orders sent are `GatedIndices` of the attempts it reached |
| Executor.GatedIndicesSpec | main.py:1362-1376 | Orders go out for exactly the attempts whose spread passed the gate, each once, in increasing order |
| Executor.EnteredOnlyWithPosition | main.py:1326-1427 | A trade is entered only at or after its entry, with a valid set-up and a position from a gated attempt or from the final check after no attempt opened; the position carries the trade's exit time and index |
| Executor.EnterTrade | main.py:1239-1440 | The outcome is `TradeEntry`; on entry the position is appended to the monitored list, otherwise the list is unchanged |
| Executor.CloseWithRetry | main.py:1463-1486 | The position closes iff some allowed attempt or the manual fallback succeeds; the fallback is tried iff every attempt failed; the attempts stop at the first success |
| Executor.CloseAtExit | main.py:1459-1487 | A position is closed at exit exactly when it belongs to this trade, was not closed automatically, and the retry or the fallback succeeds |
| Executor.ClosedAtExit | main.py:1459-1487 | Only positions of the list, of this trade, are closed at exit |
| Executor.ClosedAtExitAppend | main.py:1459-1487 | The sweep decides position by position in list order |
| Executor.ExitSweep | main.py:1459-1487 | The sweep over a snapshot of the list leaves exactly the snapshot minus the closed positions |
| Executor.ExitPhase | main.py:1459-1487 | The monitored list loses exactly the positions closed at exit |
| Executor.ExitPhaseKeepsOtherTrades | main.py:1459-1487 | The exit of one trade never removes another trade's position |
| Executor.ExitPhaseRemovesClosed | main.py:1459-1487 | On distinct positions, every position closed at exit is gone from the list |
| Results.ReportedWhenClosedBefore19 | main.py:1559-1581 | A result is reported exactly when its HH:MM:SS exit parses and is before 19:00; a missing or unparseable exit counts as the cutoff and is kept |
| Results.Today | main.py:1562-1584 | The reported results are results of the list closed before the cutoff |
| Results.Remain | main.py:1562-1584 | The kept results are results of the list not closed before the cutoff |
| Results.SplitIsPartition | main.py:1562-1584 | Reported and kept together are exactly the list: nothing lost, nothing duplicated |
| Results.Split | main.py:1560-1584 | The loop builds exactly `Today` and `Remain`, both in list order |
| Results.TradeLog.constructor | main.py:254 | The result list starts empty |
| Results.TradeLog.Record | main.py:1067 | Recording a result appends it |
| Results.TradeLog.FinalizeTradesForDay | main.py:1553-1650 | The report is `Today` of the list, the list becomes exactly `Remain`, and the totals are the sums of the reported pips and amounts |
| Results.CarriedAsWritten | main.py:2086-2087 | As written, nothing is carried into the next day (as-written half of finding C) |
| Results.LateResultLostAsWritten | main.py:2086-2087 | A result closed at or after 19:00 is kept by the finalize, then cleared by the main loop: it is never reported |
| Results.NothingLostAcrossDays | main.py:1553-1650 | Corrected: over any number of days, the results reported plus those still pending are exactly the results recorded |
| Results.Wins | main.py:2653 | The winning results are at most all results |
| Results.WinsAndLossesCoverAll | main.py:2653-2654 | Every result is a win or a loss, never both |
| Results.ScanIsMaxDrawdown | main.py:2666-2695 | After the whole series the scan's drawdown is no smaller than any fall of a cumulative total below an earlier one, and equals one such fall |
| Results.MaxDrawdown | main.py:2666-2695 | The running-peak loop returns the largest fall of a cumulative total below an earlier one, the empty prefix included: no fall is larger and one equals it |
| Results.Average | main.py:2662 | The average times the count is the total |
| Results.WinRate | main.py:2663 | The win rate is a percentage in [0, 100] and times the count gives 100 × wins |
| Results.CollectMetrics | main.py:2645-2702 | With no results the previous figures stand; otherwise counts, sums, average and win rate are those of the results and the drawdowns are the largest falls of the pip and amount series |
| Supervisor.RestartGuard.constructor | main.py:258-261 | The counters start at 0 and 0 |
| Supervisor.RestartGuard.AutoRestartOnError | main.py:2598-2641 | Within 300 s of the last restart the call is refused, then at 5 restarts it is refused, both with counters unchanged; otherwise the count rises by exactly one and the time becomes now; the restart count never exceeds 5 and admitted restarts are 300 s apart |
| Supervisor.RestartRun | main.py:2598-2616 | Corrected: a guard whose counters persist admits exactly `Admitted`: at most 5 restarts, at least 300 s apart |
| Supervisor.AdmittedBounded | main.py:2603-2616 | With persistent counters at most 5 restarts are admitted, spaced by the cooldown |
| Supervisor.RestartLimitLostAsWritten | main.py:2615-2637 | As written, each successful exec restarts the counters, so every call is admitted (as-written half of finding D) |
| Supervisor.SixQuickRestarts | main.py:2603-2637 | Six failures a second apart restart the bot six times as written, once with persistent counters |
| Supervisor.HealthCheck | main.py:2898-2904 | The overall verdict is the conjunction of the five checks |
| Supervisor.HealthyExactlyWhenEveryProbePasses | main.py:2814-2904 | Healthy exactly when the balance reply has data, the webhook exists and sends, at least 1 GiB is free, at most 500 MB are resident, and both input files and the results directory exist or can be made |
| Supervisor.RequiredErrorsEmpty | main.py:65-68 | No complaint about required fields iff all of them are truthy |
| Supervisor.RangeErrorsEmpty | main.py:86-94 | No complaint about ranges iff every present setting converts and lies in its range |
| Supervisor.CheckRequired | main.py:65-68 | The loop over the required fields collects one complaint per falsy field, in table order |
| Supervisor.CheckRanges | main.py:71-94 | The loop over the range table collects one complaint per present setting that does not convert or lies outside its bounds, in table order |
| Supervisor.NoErrorsExactlyWhenValid | main.py:60-111 | validate_config returns no errors exactly for the configurations valid setting by setting |
| Supervisor.MissingRangeNotReported | main.py:88-89 | Absent numeric settings are not reported |
| Supervisor.ValidateConfig | main.py:60-111 | The loops build exactly the complaints of `ConfigErrors`, in order |

## Findings

| source | as written | input that shows it | evidently intended | confidence | as-written member | corrected member |
|---|---|---|---|---|---|---|
| main.py:1244-1272 | process_trades re-reads the resolved HH:MM:SS times onto today's date. It skips an entry already past unless both now and the entry are before 06:00. | A plan row at 09:00 read at 10:00: execute_daily_trades moves it to 09:00 tomorrow, and process_trades then drops it | The trade runs at the instant execute_daily_trades resolved | not executed | Executor.TomorrowTradeSkippedAsWritten | Executor.ResolvedTradeIsTaken |
| main.py:3073-3082 | An overnight window moves back a day only when `now.hour < exit.hour` (or both hours are before 6). | Row 22:00:00 to 02:30:00 at 02:10: the window lands on tonight, and the sweep closes the live position as an orphan | The window moves back while the time of day has not passed the exit | not executed | Schedule.SweepMissesLiveOvernightTrade | Schedule.TradeWindowCoversLiveTime |
| main.py:2086-2087 | The main loop empties trade_results after the day's trades, and that discards what finalize_trades_for_day kept past 19:00 (main.py:1650). | A trade closed at 19:30: the 19:00 finalize keeps it, then the main loop clears it | Results after the cutoff wait for the next report | not executed | Results.LateResultLostAsWritten | Results.NothingLostAcrossDays |
| main.py:2598-2641 | restart_count and last_restart_time are plain globals, and os.execv starts the program afresh with both back at 0. | Six fatal errors one second apart, each restart succeeding: six restarts, not one | At most 5 restarts, at least 300 s apart | not executed | Supervisor.RestartLimitLostAsWritten | Supervisor.RestartRun |

The model uses the corrected halves:
- the executor takes resolved trades through `Executor.Reentry`;
- the schedule builds its windows with `Schedule.TradeWindow`;
- the day cycle is `Results.Cycles`;
- the restart guard's counters persist (`Supervisor.RestartGuard` in `Supervisor.RestartRun`).

## Left out

- Network, HMAC and JSON:
  - HTTP requests, JSON decoding and the HMAC-SHA256 digest itself (RFC 2104 over FIPS 180-4) are not modelled; every reply is a parameter.
  - Only the signed text is modelled.
  - The exchange calls (balance, tickers, close position, execution price and fee, positions) are not part of this model; their answers are given.
- Threads, locks and sleeping:
  - The scheduler threads are out of scope: the 19:00 finalize, the midnight reset, the auto-restart scheduler, the periodic sweep and the watchdog thread of a failed entry.
  - Locks and `time.sleep` are also out of scope.
  - Only the decision each makes per iteration is modelled (`Ledger.NextMidnight`, `Schedule.SweepCloses`, the class methods).
- `Executor.EnterTrade`, `Executor.ExitPhase`:
  - The wall-clock waits before entry and exit are not modelled.
  - The monitoring loop between them is not modelled; `Monitor.Watch.MonitorAndClose` models one pass of it.
- Notifications: Discord notifications and logging are left out; they never change state.
- Randomness: random jitter is a parameter within its stated range.
- Rounding and display: float formatting and the daily results file are left out; arithmetic is over `real`, so floating-point error is not modelled.
- `Profit.CurrentProfitPips`, `Monitor.Decide`: the source rounds the open profit to two decimals (main.py:876) before comparing it with the stop-loss and take-profit thresholds; the model compares the unrounded value, so a profit within 0.005 pips of a threshold can be decided differently. `Profit.ProfitPips` and the profit amount likewise omit their `round(…, 2)`.
- `ApiClient.Client.AdjustRateLimit`:
  - A non-throttle reply right after the third throttle raises the limit by one at once, because main.py:333-335 has already put the streak back at 0 (`ApiClient.ThrottleThenRecoverExample`).
  - The limiter is fed only by replies with a non-zero status, never by a successful one.
- `TickerCache.ServedIsFreshUnlessOmitted`: states that served entries are fresh only for symbols the reply answered. The cache can serve an expired entry when the refetch reply omits the symbol, so the stronger "never stale" does not hold.
- `Schedule.NormalizePair`: not idempotent. A six-letter name gets an underscore at index 3 whatever it is, and applying it again to a seven-character result keeps that result.
- `Ledger.PlanOrder`: with autolot off and no lot given, no size is sent and no cap check happens. The model states exactly that rather than a cap for every order.
- `Monitor.RemovalLeavesSurvivors`, `Executor.ExitPhaseRemovesClosed`:
  - These assume the monitored positions are distinct (their position ids differ).
  - With equal dictionaries in the list, list.remove may take out an earlier equal copy.
  - `Monitor.RemoveEachCount` states the multiset result without that assumption.
- `Common.Lower`, `Common.Upper`: str.lower() and str.upper() are modelled on ASCII letters only; other characters are left unchanged. Whitespace, by contrast, is the full set str.isspace() accepts (`Common.IsSpace`).
- `Clock.ParseClock`, `Schedule.UsableRowsSpec`, `Schedule.ReadPlan`: strptime's `\d` and int() also accept non-ASCII decimal digits (full-width ０-９, for one); the model reads ASCII digits only, so a plan time written in such digits is refused here but read by the source.
- `Schedule.ReadPlan`, `Schedule.LoadTradesSchedule`: an empty plan file, where `next(reader)` raises StopIteration before any row, is not modelled.
- `Results.ReportedWhenClosedBefore19`: for an ISO exit time the parsed instant is a parameter, and timezone-aware comparisons are not modelled. The bot itself only writes HH:MM:SS exit times.
- `Schedule.LastTradeTime`, `Schedule.LastExitNeverMovesEntry`: an ISO exit time (one with 'T' or '-') is not read and counts as none. Such a time would be an instant of its own date, so it could move an entry; the bot itself only writes HH:MM:SS exit times.
- `Results.CollectMetrics`:
  - The source runs one loop over both series; the model runs `Results.MaxDrawdown` once per series, and each pass computes the same value.
  - A missing profit_amount counts as 0 in the source; a result here always carries one.
- `Supervisor.ValidateConfig`:
  - float() and int() of a string setting are given with the value (None when they raise); their text grammar is not modelled.
  - int() of an infinite float raises OverflowError, which the source does not catch; reals have no infinity here.
- `Supervisor.RestartGuard.AutoRestartOnError`: the clean-up that closes open positions before the exec is a series of exchange calls and is not modelled.
- `Supervisor.HealthyExactlyWhenEveryProbePasses`:
  - The probes (disk usage, resident memory, file existence, directory creation, webhook send) are parameters.
  - The other memory and backup routines (garbage collection, backups, backup clean-up) are not part of this model.
- Other files: the configuration editor UI (config_editor.py) and the Discord command layer (bot_core.py and the bot commands in main.py) are not part of this model.
