# Verification of the SpeedTrader options pipeline

A Dafny model of the parts of SpeedTrader whose correctness is an argument over whole runs, not over one
function body. `dafny verify dfyconfig.toml` checks all of it. Prices and sizes are reals, times and counts are
integers, `round` is half-to-even on reals, and hashes and signatures are ideal (injective).

## What is modelled

**Crash-safe single submission** (`IntentLog`, `JournalLine`, `JournalFile`, `PlainCodec`, `Authorization`,
`Adapter`, `Reconciliation`, `Recovery`, `Protocol`, `RegistryInvariant`, `JournalInvariant`, `Guarantees`,
`Refinement`, `Runtime`). The journal is a text file read line by line through an abstract codec, for which
`PlainCodec` gives a concrete one; a line is a record, is skipped, or raises; a write may stop after any
prefix; limit prices are in millionths. `Protocol` is a step system over licences, the used-nonce registry,
the journal file, the broker's calls and live orders, and one program counter per submitter; steps of
different submitters interleave, a crash may come between any two steps and may tear the line being written,
and it keeps journal and broker and loses the registry. `Refinement` proves that every outcome `submit` and
`recover` permit is a path of these steps. `Runtime` is the bounded loop.

**Backtest** (`Market`, `Backtest`, `BacktestStats`, `S07Results`). The walk-forward loop over any deterministic strategy, the
first-touch resolver, the windows, and the one-pass statistics against declarative definitions.

**Indicators, S07 and scoring** (`Features`, `IndicatorLaws`, `IndicatorSteps`, `S07`, `Scoring`, `Mirror`, `Trend`).
Range, causality, each indicator from prices, and an exact up/down mirror symmetry, carried through signal, score,
trades and the whole backtest.

**Risk gate, option sizing, contract choice and the decision cycle** (`Measures`, `RiskGate`, `GateMeaning`,
`Contracts`, `OptionsRisk`, `AiReview`, `Orchestrator`, `Oversized`).

## Where the obvious claim is not what the code does

- A torn journal tail is not repaired. A record appended to it is glued to the torn text and both are skipped on
  read, so the write-ahead is durable exactly when the file ended in a newline (`Refinement.WriteAheadDurableExactly`);
  otherwise an order can be sent unrecorded and, after a crash, sent again (`Refinement.TornTailForgetsAndRepeats`,
  and `Refinement.TornTailIsReachable` for a run that gets there). The results over runs (`AtMostOneCallPerId`,
  `NoOrderForgotten`, `LogNeverDeniesAnOrder`, `SafeStart`) therefore assume `Careful`: each completed write-ahead
  met a file ending in a newline. The module comment in `intent_journal.py` promises durability without that
  condition. Recovery has the same limit, and `Recovery.RecoveryExact` states it as an equivalence.
- "Unreadable lines are skipped" does not hold for every line. `from_mapping` guards the id, the phase and the time, but
  converts quantity and extra outside the guard. The line
  `{"at":"2024-01-01T00:00:00","client_order_id":"st-1","phase":"attempted","quantity":"abc"}`, or one with `"extra":5`,
  raises out of `iter_records`: every later record is hidden, recovery raises, and `submit` raises with its nonce burned
  (`JournalFile.ReaderSeesEverything` is the exact condition, `PlainCodec.BadQuantityHidesAnAttempt` a file). The journal's
  own writes never make such a line (`JournalFile.OwnWritesNeverRaise`).
- "Safe to trade" is about the broker's answers, not about the file. On a torn tail the first answer is swallowed, and
  the runtime starts trading with its intent still pending (`Recovery.SafeWhilePending`; exact condition in
  `Recovery.SafeMeansSettledExactly`).
- `position_exists` is false for an order cancelled after a partial fill; `Reconciliation.PositionMissedExactly`
  says for which payloads the position is missed.
- Recovery counts OPEN and NEEDS_HUMAN as resolved, so "safe to trade" means that every order was seen by the
  broker lookup, not that every order is finished.
- N cycles sleep N - 1 times only if the check after the N-th cycle found the bound. One that arises while the loop
  sleeps makes it N (`Runtime.RunFresh` says exactly when, `Runtime.KillDuringSleep` is such a run). Orders stay
  below `max_orders + len(symbols)`, since the bound is checked once a cycle.
- "Every exit persists a decision" has exceptions (`Orchestrator.OneDecisionExactly`). Among them, an AI review's final reply
  `{"verdict":"VETO","confidence":1000...0}` with four hundred zeros makes `float` raise an error that the review does
  not catch, and the run ends without a decision (`Orchestrator.HugeConfidenceLosesTheDecision`).
- `size_position`: in whole shares the 101% limit holds for every multiplier. With fractional shares the quantity is
  rounded to six decimals after the cap and can pass the limit (`Measures.FractionPassesTheLimit`; exact condition in
  `Measures.FractionsKeepTheLimitExactly`). The quantity is not monotone in the multiplier;
  `Measures.QuantityDropsExactly` says when a larger one buys less.
- No rule that failed passes in a fuller book, but the size check can: a size that was capped to nothing may come back
  when a hotter book halves the multiplier (`RiskGate.HotterBookReopensTheGate`; exact condition in
  `RiskGate.GateReopensExactly`). With tame size factors (`Measures.TameSizing`) a rejection always stays.
- `gate.size_multiplier or 1.0` turns a multiplier that rounds to zero into one (`Oversized.ZeroMultiplierOversizes`), and
  rounding to four places can lift one above the configured maximum. `Orchestrator.PassedOnWithinExactly` says for
  which configured bounds neither happens.

## Model

| member | source | states |
|---|---|---|
| IntentLog.LatestIsLast | src/speedtrader/execution/intent_journal.py:253-258 | the latest record of an id is the one after which the id does not occur, and exists iff the id occurs |
| IntentLog.FirstIsFirst | src/speedtrader/execution/intent_journal.py:260-279 | the first record of an id is the one before which the id does not occur, and exists iff the id occurs |
| IntentLog.OrderExact | src/speedtrader/execution/intent_journal.py:260-279 | the dictionary order holds exactly the ids of the log, each once |
| IntentLog.SortExact | src/speedtrader/execution/intent_journal.py:274-279 | the pending list is a stable sort by first attempt and a permutation |
| IntentLog.PendingExact | src/speedtrader/execution/intent_journal.py:260-279 | an id is listed iff its last phase is unresolved; entries carry first and last record, are distinct, oldest first, ties in order of appearance |
| IntentLog.AppendExact | src/speedtrader/execution/intent_journal.py:194-204 | a completed append is readable iff the file ended in a newline; otherwise the record and any whole record in the tail are lost |
| JournalFile.WholeLine | src/speedtrader/execution/intent_journal.py:194-204 | a whole line appended to the file text does what the abstract append does |
| JournalFile.TornLine | src/speedtrader/execution/intent_journal.py:194-204 | every surviving prefix of a line leaves one of the listed states |
| JournalFile.TornWriteIsSafe | src/speedtrader/execution/intent_journal.py:89-128 | on a newline-terminated file that reads to the end, after any prefix of one appended line it still does, and a reader sees the old records, or those and the new one |
| JournalFile.UnreadableLineHidesNothing | src/speedtrader/execution/intent_journal.py:234-251 | a complete line that does not parse, or is no record, never hides what follows it, and does not make reading raise |
| JournalLine.RaisesExactly | src/speedtrader/execution/intent_journal.py:106-128 | a line raises iff it is an object with a usable id, phase and time whose quantity or extra does not convert; a record always has an id |
| JournalLine.QuantityFailsExactly | src/speedtrader/execution/intent_journal.py:122 | which quantities do not convert |
| JournalFile.ReaderSeesEverything | src/speedtrader/execution/intent_journal.py:234-251 | for every file: reading reaches the end and has seen every record iff no line is unconvertible |
| JournalFile.RaisingLineHidesTheRest | src/speedtrader/execution/intent_journal.py:234-251 | one unconvertible line hides everything after it |
| JournalFile.OwnWritesNeverRaise | src/speedtrader/execution/intent_journal.py:194-204 | no write of the journal, whole, torn or glued onto a torn tail, leaves an unconvertible line |
| JournalFile.LinesConcat | src/speedtrader/execution/intent_journal.py:238 | behind a terminated file the lines of what follows are lines of the whole |
| PlainCodec.PlainIsValid | src/speedtrader/execution/intent_journal.py:89-128 | a concrete codec provides everything assumed of the encoding |
| PlainCodec.BadLinesRaise | src/speedtrader/execution/intent_journal.py:122-127 | the attempt with quantity "abc" and the attempt whose extra is a number raise |
| PlainCodec.BadQuantityHidesAnAttempt | src/speedtrader/execution/intent_journal.py:234-251 | a file whose first line is such an attempt: the attempt behind it is pending on the file and never yielded |
| JournalFile.IntentJournal.Append | src/speedtrader/execution/intent_journal.py:194-204 | success appends one line; failure leaves a prefix of it; the old text stays a prefix |
| JournalFile.IntentJournal.IterRecords | src/speedtrader/execution/intent_journal.py:234-251 | yields the records before the first unconvertible line, and raises iff there is one |
| JournalFile.IntentJournal.SplitLines | src/speedtrader/execution/intent_journal.py:238 | the lines of the file |
| JournalFile.IntentJournal.LatestPhase | src/speedtrader/execution/intent_journal.py:253-258 | the phase of the last record of the id; raises iff some line is unconvertible |
| JournalFile.IntentJournal.HasAttempt | src/speedtrader/execution/intent_journal.py:281-288 | true iff a record before any unconvertible line has the id; otherwise raises iff there is such a line |
| JournalFile.IntentJournal.Gather | src/speedtrader/execution/intent_journal.py:260-272 | the dictionaries hold, per id, its first and its latest record, in order of first appearance |
| JournalFile.IntentJournal.PendingList | src/speedtrader/execution/intent_journal.py:260-279 | the dictionaries and the sort give the pending list of the log; raises iff some line is unconvertible |
| JournalFile.IntentJournal.RecordAttempt | src/speedtrader/execution/intent_journal.py:206-219 | appends one ATTEMPTED record, refuses an empty id |
| JournalFile.IntentJournal.RecordOutcome | src/speedtrader/execution/intent_journal.py:221-232 | appends one outcome record without symbol or quantity; earlier lines stay |
| Authorization.Authorize | src/speedtrader/execution/authorization.py:196-235 | refuses a non-positive quantity or lifetime, and only those; a minted licence is signed for its own fields |
| Authorization.AuthorizationRegistry.Consume | src/speedtrader/execution/authorization.py:182-189 | succeeds iff the nonce was unused, and burns it |
| Authorization.AuthorizationRegistry.Verify | src/speedtrader/execution/authorization.py:238-285 | first failing check in order; the nonce is burned only when all others pass; any failure leaves the registry unchanged |
| Authorization.VerdictExactly | src/speedtrader/execution/authorization.py:238-285 | which failure is reported: forgery, then expiry, then another order, then another book |
| Authorization.BindingIsExact | src/speedtrader/execution/authorization.py:160-168 | a signature fits exactly the minted licence, its proposal, its book, its process and times before expiry |
| Adapter.ClientOrderIdInjective | src/speedtrader/execution/options_adapter.py:163-250 | different nonces give different client order ids |
| Adapter.OptionsExecutionAdapter.JournalOutcome | src/speedtrader/execution/options_adapter.py:144-161 | a failed outcome write is absorbed and leaves at most a torn line |
| Adapter.OptionsExecutionAdapter.WriteAhead | src/speedtrader/execution/options_adapter.py:210-247 | the search for the id and the write-ahead: go on, refuse, or raise |
| Adapter.OptionsExecutionAdapter.Contact | src/speedtrader/execution/options_adapter.py:249-308 | one broker call and the outcome line that follows it |
| Adapter.SendComposes | src/speedtrader/execution/options_adapter.py:225-308 | write-ahead, call and outcome together leave the state `submit` promises |
| Adapter.OptionsExecutionAdapter.Submit | src/speedtrader/execution/options_adapter.py:163-308 | registry, journal and broker after a submission in every case: the broker is called iff the request is admitted, its id is not in the journal and the write-ahead completed, with the licensed order; a raising search leaves by an exception with the nonce burned and nothing else changed |
| Adapter.CalledExactly | src/speedtrader/execution/options_adapter.py:163-256 | in the fields of licence, request and book: the broker is called, with the licensed order, iff the licence is genuine, unexpired, unused and bound to this order and book, the quantity is the approved positive one, and there is no journal or no record of the id in one that reads to its end and takes the write-ahead |
| Adapter.ReplyDecides | src/speedtrader/execution/options_adapter.py:249-308 | from the reply alone: SUBMITTED, with exactly that broker id, iff a response carries one; REJECTED iff the broker refused; UNKNOWN otherwise |
| Adapter.FileTells | src/speedtrader/execution/options_adapter.py:144-308 | the last line of the file then says the same three things; on a terminated file the attempt with the order's data comes right before it |
| Reconciliation.ReconcileOrder | src/speedtrader/execution/reconciliation.py:164-264 | the state, discrepancies and figures for every broker answer; absence and unavailability are kept apart |
| Reconciliation.StateExactly | src/speedtrader/execution/reconciliation.py:58-264 | which answer gives which of the eight states |
| Reconciliation.AgreesExactly | src/speedtrader/execution/reconciliation.py:224-245 | when the broker's order contradicts what was sent: known symbols or quantities that differ, an overfill, or a fill of nothing |
| Reconciliation.RetryExactly | src/speedtrader/execution/reconciliation.py:124-135 | `safe_to_retry` iff the broker has no such order, or rejected exactly the order that was sent; then nothing is held and nothing more will happen |
| Reconciliation.TerminalExactly | src/speedtrader/execution/reconciliation.py:79-82 | an order is over iff it does not exist, or it is the one that was sent and its status is final |
| Reconciliation.PositionMissedExactly | src/speedtrader/execution/reconciliation.py:85-87 | with shares held, `position_exists` is false iff the status is neither filled nor partially filled, or a discrepancy was found |
| Reconciliation.CanceledPartialFillIsMissed | src/speedtrader/execution/reconciliation.py:120-121 | an order for ten cancelled with four filled is terminal and reports no position |
| Reconciliation.ReconcileAll | src/speedtrader/execution/reconciliation.py:267-293 | one result per item in order, an unavailable one included |
| Recovery.SettleOne | src/speedtrader/execution/recovery.py:105-149 | one lookup; a record is written iff the broker answered |
| Recovery.Recover | src/speedtrader/execution/recovery.py:105-149 | the journal grows by exactly the answered outcomes, the report matches, each pending id is asked once; a failing write stops there; an unconvertible line raises before anything is asked |
| Recovery.OutcomesExact | src/speedtrader/execution/recovery.py:126-145 | one recovery record per answered intent, no other |
| Recovery.AnswerDecides | src/speedtrader/execution/recovery.py:46-49 | the line written for an answer: ABANDONED iff the broker has no such order, REJECTED iff it refused the order that was sent, RECONCILED otherwise, with the broker's id and status |
| Recovery.AnswerOnFile | src/speedtrader/execution/recovery.py:105-149 | for every pending intent that was answered the latest record on the file is that line, unless it is the first one written behind a torn tail |
| Recovery.MismatchNeedsTheAttempt | src/speedtrader/execution/intent_journal.py:138-144 | an intent whose last record is an outcome has neither symbol nor quantity: a refusal counts whatever the broker's order looks like, short of an overfill |
| Recovery.ReportTells | src/speedtrader/execution/recovery.py:134-147 | the report names the same phase for the same answer |
| Recovery.RecoveryExact | src/speedtrader/execution/recovery.py:105-149 | afterwards exactly the unanswered intents are pending and the old log is a prefix of the new, iff the file ended in a newline or nothing was answered |
| Recovery.TornRecoveryLoses | src/speedtrader/execution/recovery.py:105-149 | on a torn tail the first answer, or a whole record in the tail, is lost |
| Recovery.SafeExactly | src/speedtrader/execution/recovery.py:82-89 | safe to trade iff the broker answered for every intent that was pending, whatever became of the writes |
| Recovery.SafeMeansSettledExactly | src/speedtrader/execution/recovery.py:82-89 | for every tail: "safe" and "nothing pending on the file" agree, except when the report is safe, something was answered and the torn tail swallowed the first answer without also swallowing its intent |
| Recovery.SafeWhilePending | src/speedtrader/execution/recovery.py:82-89 | on unreadable tail text with every intent answered, the report is safe and the first intent is still pending |
| Recovery.PendingAfterTorn | src/speedtrader/execution/recovery.py:105-149 | what is pending after a recovery on a torn tail |
| Recovery.NothingToDo | src/speedtrader/execution/recovery.py:105-149 | with nothing pending a recovery asks and writes nothing |
| RegistryInvariant.RegistryStep | src/speedtrader/execution/authorization.py:171-189 | every step of any interleaving, crashes included, keeps the registry invariant |
| RegistryInvariant.RegistryContact | src/speedtrader/execution/options_adapter.py:249-256 | calling the broker keeps the registry invariant |
| RegistryInvariant.RegistryCrash | src/speedtrader/execution/authorization.py:171-189 | losing the registry in a crash keeps the invariant of every process life |
| JournalInvariant.JournalStep | src/speedtrader/execution/options_adapter.py:225-308 | every step whose completed write-ahead meets a clean tail keeps the journal invariant |
| JournalInvariant.JournalWriteAhead | src/speedtrader/execution/options_adapter.py:225-247 | a write-ahead, whole or torn, keeps the journal invariant on a clean tail |
| JournalInvariant.JournalContact | src/speedtrader/execution/options_adapter.py:249-256 | calling the broker after a durable attempt keeps the journal invariant |
| JournalInvariant.JournalWriteOutcome | src/speedtrader/execution/options_adapter.py:144-161 | an outcome line, whole or torn, keeps the journal invariant |
| Guarantees.Reachable | src/speedtrader/execution/options_adapter.py:163-308 | both invariants hold in every state of every run |
| Guarantees.OneLicenceOneOrder | src/speedtrader/execution/authorization.py:171-285 | within a process life one licence yields at most one call, carrying the proposal, book and quantity it was minted for, before expiry |
| Guarantees.AtMostOneCallPerId | src/speedtrader/execution/options_adapter.py:163-250 | with a journal the broker is called at most once per client order id over any run, crashes and old licences included |
| Guarantees.NoOrderForgotten | src/speedtrader/execution/options_adapter.py:225-308 | each called id has an earlier durable attempt with the order's data and is pending unless refused or settled by recovery |
| Guarantees.LogNeverDeniesAnOrder | src/speedtrader/execution/intent_journal.py:260-279 | an order that exists is pending in the log or was seen by recovery |
| Guarantees.SafeStart | src/speedtrader/execution/recovery.py:82-89 | with nothing pending every live order has been seen by recovery |
| Refinement.SubmitRefines | src/speedtrader/execution/options_adapter.py:163-308 | every outcome of `submit` on a journal without unconvertible lines is a path of protocol steps |
| Refinement.RecoverRefines | src/speedtrader/execution/recovery.py:105-149 | what a recovery writes, whatever the journal ends in, is a path of protocol steps |
| Refinement.StoppedRecoveryRefines | src/speedtrader/execution/recovery.py:105-149 | so is a recovery that a failing write ended |
| Refinement.SafeRestart | src/speedtrader/app/runtime.py:261-275 | after any careful run, a restart reported safe leaves every live order recorded as seen; one that was pending was answered with an order, whose status and id the record carries |
| Refinement.WriteAheadDurableExactly | src/speedtrader/execution/intent_journal.py:194-204 | the write-ahead is readable afterwards iff the file ended in a newline |
| Refinement.SentUnrecorded | src/speedtrader/execution/options_adapter.py:225-250 | from a torn tail, a submission sends an order the journal does not show |
| Refinement.TornTailForgetsAndRepeats | src/speedtrader/execution/options_adapter.py:225-250 | from any such state the order is forgotten, and after a crash sent a second time |
| Refinement.TornTailIsReachable | src/speedtrader/execution/intent_journal.py:194-204 | a concrete run reaches that state |
| Runtime.AutonomousRuntime.RequestStop | src/speedtrader/app/runtime.py:199-209 | the first reason given is kept |
| Runtime.AutonomousRuntime.StopNow | src/speedtrader/app/runtime.py:235-250 | the first bound hit, in the order they are checked |
| Runtime.ReasonExactly | src/speedtrader/app/runtime.py:235-250 | which reason is given: the request, then kill switch, cycles, orders, deadline and errors, each iff none before it holds |
| Runtime.AutonomousRuntime.RunCycle | src/speedtrader/app/runtime.py:307-347 | counts exactly the symbols that decided, that raised, and whose order was acknowledged or is ambiguous; a failing symbol does not stop the rest; a closed or unknown market runs none |
| Runtime.World.HitsExactly | src/speedtrader/app/runtime.py:348-357 | an acknowledged and an ambiguous submission count as orders, a refused or blocked one does not |
| Runtime.AutonomousRuntime.Account | src/speedtrader/app/runtime.py:281-290 | the counters after a cycle keep every bound |
| Runtime.AutonomousRuntime.CycleThenCheck | src/speedtrader/app/runtime.py:278-303 | one cycle is added, and a sleep follows iff the check after it finds no bound; a stop is requested iff a signal came at that check or cut the cycle short |
| Runtime.AutonomousRuntime.OnePass | src/speedtrader/app/runtime.py:275-303 | a cycle runs iff no bound holds at the check before it, and a sleep follows iff none holds at the check after it; a final reason that names a counter is true of it |
| Runtime.AutonomousRuntime.Run | src/speedtrader/app/runtime.py:261-305 | an unsafe start runs no cycle; with `max_cycles` the loop ends; cycles, orders and error counters stay within their bounds at every point; a first run stops at the first check before a cycle that finds a bound |
| Runtime.TrailingFailuresExact | src/speedtrader/app/runtime.py:285-290 | `consecutive_errors` is the length of the longest failed suffix |
| Runtime.OrdersAdd | src/speedtrader/app/runtime.py:283-287 | the orders counted are the sum over the cycles |
| Runtime.SleepsOf | src/speedtrader/app/runtime.py:298-303 | sleeps are cycles minus one, or as many when the last cycle was also followed by one |
| Runtime.RunFresh | src/speedtrader/app/runtime.py:261-305 | in a sticky world a run of N cycles sleeps N - 1 times iff the check after the N-th found a bound, else N times; ending on one of its own counters means N - 1 |
| Runtime.FoundStays | src/speedtrader/app/runtime.py:235-250 | in a sticky world a bound found after a cycle is found before the next |
| Runtime.SleptBetween | src/speedtrader/app/runtime.py:275-303 | in a sticky world every cycle but the last is slept after |
| Runtime.KillDuringSleep | src/speedtrader/app/runtime.py:275-303 | a kill switch that appears during the n-th sleep: n cycles sleep n times |
| Market.ValidateSeries | src/speedtrader/data/validators.py:58-129 | accepts exactly the series with enough sound bars in strictly increasing time; otherwise names the first rule the first faulty bar breaks, or how the first bar is out of order |
| Market.FitExactly | src/speedtrader/data/validators.py:58-129 | a series is fit iff it is long enough, numbers are finite, times aware and increasing, lows positive, opens and closes within their bars and no volume negative |
| Backtest.FirstTouch | src/speedtrader/evaluation/backtest.py:185-203 | the first bar that touches stop or target, none if no bar does |
| Backtest.Resolve | src/speedtrader/evaluation/backtest.py:185-203 | exit and bars held by first touch, the stop winning within one bar |
| Backtest.ResolveMatches | src/speedtrader/evaluation/backtest.py:185-203 | the declarative first-touch conditions determine the result |
| Backtest.SimulateTrade | src/speedtrader/evaluation/backtest.py:240-262 | the loop's exit and reward are those of the trade taken at that position |
| Backtest.TradeReward | src/speedtrader/evaluation/backtest.py:240-262 | every trade of every walk: its levels are those of the signal on the bars before it; a target pays its distance over the stop distance, a stop loses one R, an open trade counts nothing |
| Backtest.TradeExit | src/speedtrader/evaluation/backtest.py:185-203 | every trade of every walk: the bars before the last lie strictly between stop and target, the last touches the stop, or the target and not the stop, or the series ends |
| Backtest.RunBacktest | src/speedtrader/evaluation/backtest.py:206-272 | the trades are those of the walk over the series, and each of the three errors is raised exactly when documented |
| Backtest.WalkForwardBars | src/speedtrader/evaluation/backtest.py:232-270 | the loop gives the walk |
| Backtest.LimitTakesPrefix | src/speedtrader/evaluation/backtest.py:266-267 | `max_trades` cuts the trades of the unlimited run short and changes none of them |
| Backtest.MaxTradesExactly | src/speedtrader/evaluation/backtest.py:266-267 | none or zero keeps every trade, a positive number that many of the first, a negative one the first |
| Backtest.NoOverlap | src/speedtrader/evaluation/backtest.py:232-272 | trades never overlap, stay in range, hold no more bars than tested and respect `max_trades` |
| Backtest.TradeStays | src/speedtrader/evaluation/backtest.py:185-203 | a trade resolved inside a series is the same trade in every longer one |
| Backtest.OnlyLastUnresolved | src/speedtrader/evaluation/backtest.py:232-272 | at most one trade is unresolved, the last |
| Backtest.EverySignalIsTaken | src/speedtrader/evaluation/backtest.py:232-272 | every trade is the one the strategy asks for on the bars before it, and every position that signals is covered by a trade |
| Backtest.HistoryIsStable | src/speedtrader/evaluation/backtest.py:185-272 | the resolved trades are a prefix of those on any longer series |
| Backtest.WalkForwardRun | src/speedtrader/evaluation/backtest.py:283-317 | the tested ranges tile the testable bars without gap or overlap |
| BacktestStats.EquityCurve | src/speedtrader/evaluation/backtest.py:139-145 | the cumulative R after each resolved trade |
| BacktestStats.CurveSteps | src/speedtrader/evaluation/backtest.py:139-145 | the curve starts at zero, moves by each resolved trade's R less the cost, and ends at the total |
| BacktestStats.MaxDrawdown | src/speedtrader/evaluation/backtest.py:148-153 | one pass finds the largest fall between any two points in order |
| BacktestStats.DrawdownUnique | src/speedtrader/evaluation/backtest.py:148-153 | the largest fall is one number |
| BacktestStats.GainsMinusPains | src/speedtrader/evaluation/backtest.py:131-136 | gains minus losses is the total; the denominator is positive iff some trade lost |
| BacktestStats.CostLowersTotal | src/speedtrader/evaluation/backtest.py:118-128 | a higher cost lowers the total by cost times trades and the expectancy by the cost |
| BacktestStats.CostLowersProfitFactor | src/speedtrader/evaluation/backtest.py:131-136 | once defined it stays defined and never rises |
| BacktestStats.CostDeepensDrawdown | src/speedtrader/evaluation/backtest.py:148-153 | drawdown never falls as cost rises |
| BacktestStats.HigherCostIsWorse | src/speedtrader/evaluation/backtest.py:320-348 | of two rows for the same trades the one at higher cost is no better in any figure |
| BacktestStats.CostSensitivity | src/speedtrader/evaluation/backtest.py:320-348 | each row holds the figures at its cost, the drawdown of its curve included, and a row at higher cost is no better in any figure |
| S07Results.S07Pays | src/speedtrader/evaluation/backtest.py:255-262 | every resolved trade of every S07 backtest is +2 R or -1 R |
| S07Results.S07Report | src/speedtrader/evaluation/backtest.py:118-145 | with T targets and S stops at a cost of c: total 2T - S - c(T + S), expectancy that over T + S, profit factor (2 - c)T / (1 + c)S, undefined iff nothing was lost |
| Features.Sma | src/speedtrader/quant/features.py:117-128 | the sliding sum is the mean of the last `period` values |
| Features.Ema | src/speedtrader/quant/features.py:131-152 | the loop gives the recursive filter, seeded by the first value |
| Features.EmaWithinPrefix | src/speedtrader/quant/features.py:131-152 | each value lies between the least and the greatest of its prefix |
| Features.EmaCausal | src/speedtrader/quant/features.py:131-152 | the value at i depends on values 0..i only |
| Features.EmaReflects | src/speedtrader/quant/features.py:131-152 | reflecting the input reflects the output |
| Features.EmaAdds | src/speedtrader/quant/features.py:155-174 | the filter of a sum is the sum of the filters |
| Features.EmaOnBuffer | src/speedtrader/quant/features.py:155-174 | missing values stay missing wherever they are; the present ones are averaged as if the others were not there |
| Features.BufferOfRest | src/speedtrader/quant/features.py:155-174 | a buffer missing only its first value averages like the rest on its own |
| Features.Atr | src/speedtrader/quant/features.py:192-216 | seeded by the mean of the first true ranges, then smoothed; the first values are missing |
| Features.WilderWithinPrefix | src/speedtrader/quant/features.py:192-216 | the average lies within the range of the true ranges so far |
| Features.WilderCausal | src/speedtrader/quant/features.py:192-216 | it depends on the bars so far only |
| Features.Adx | src/speedtrader/quant/features.py:226-297 | the three loops give the averaged movements and index |
| Features.RawMovements | src/speedtrader/quant/features.py:255-286 | directional movement scaled by true range, per bar |
| Features.DirectionalIndex | src/speedtrader/quant/features.py:288-297 | the index of the two averages, per bar |
| IndicatorLaws.DiWithin | src/speedtrader/quant/features.py:226-297 | on sound bars DI+ and DI- lie in [0,100] and sum to at most 100 |
| IndicatorLaws.AdxWithin | src/speedtrader/quant/features.py:226-297 | ADX lies in [0,100] |
| IndicatorLaws.AtrWithin | src/speedtrader/quant/features.py:192-216 | ATR lies between the least and the greatest span from the highest to the lowest of a bar's prices and the close before it |
| IndicatorLaws.AtrWithinPrices | src/speedtrader/quant/features.py:192-216 | ATR is never negative and never above the whole price range of the bars so far |
| IndicatorLaws.TrueRangeIsGreatest | src/speedtrader/quant/features.py:177-189 | the true range bounds its three distances and is one of them |
| IndicatorLaws.TrueRangeSpans | src/speedtrader/quant/features.py:177-189 | on sound bars it spans the bar and the close before it |
| IndicatorSteps.EmaStep | src/speedtrader/quant/features.py:131-152 | two parts of the new value to `period - 1` parts of the old average, from the first value on |
| IndicatorSteps.AtrStep | src/speedtrader/quant/features.py:192-216 | one part of the new true range to `period - 1` parts of the old average, from the mean of the first `period`; missing before |
| IndicatorSteps.MovementStep | src/speedtrader/quant/features.py:255-286 | what a bar adds to DI+ and DI-: the larger of the rise of the high and the fall of the low, in percent of its true range, on its own side only |
| IndicatorSteps.DirectionStep | src/speedtrader/quant/features.py:226-297 | DI+ and DI- average those, ADX averages their difference in percent of their sum |
| IndicatorLaws.IndicatorsAreCausal | src/speedtrader/quant/features.py:131-297 | ATR, DI and ADX at i depend on bars 0..i only |
| IndicatorLaws.IndicatorsReflect | src/speedtrader/quant/features.py:131-297 | reflection keeps ATR and ADX and swaps DI+ with DI- |
| IndicatorLaws.AtrReflects | src/speedtrader/quant/features.py:192-216 | reflection keeps the ATR |
| IndicatorLaws.Compute | src/speedtrader/quant/features.py:341-372 | the indicators at the newest bar, none below the minimum length |
| IndicatorLaws.FeaturesReflect | src/speedtrader/quant/features.py:341-372 | the reflected series has the reflected features |
| Trend.FeaturesAre | src/speedtrader/quant/features.py:333-372 | every feature is there iff there are enough bars, each the newest value of its own indicator |
| Trend.PreviousAtr | src/speedtrader/quant/features.py:341-372 | the previous ATR is the ATR the series had one bar ago |
| Trend.RisingDirection | src/speedtrader/quant/features.py:226-297 | in a market of higher highs and no lower low DI- is zero, DI+ positive and ADX a hundred at every bar |
| S07.WindowExtremes | src/speedtrader/quant/strategies/s07.py:153-180 | the highest high and lowest low of shifts 2 to 21 |
| S07.Evaluate | src/speedtrader/quant/strategies/s07.py:107-217 | signal, direction, entry, stop, target and base score, or the reason for none |
| S07.BreakoutMeans | src/speedtrader/quant/strategies/s07.py:153-217 | the loop's comparison says the close lies beyond every bar of the window |
| S07.BreakoutsReflect | src/speedtrader/quant/strategies/s07.py:153-180 | a breakout above becomes a breakout below and the body stays as large |
| S07.SignalGeometry | src/speedtrader/quant/strategies/s07.py:182-217 | every signal risks 1.5 ATR to gain 3, on the right sides of the entry, with a body larger than the stop distance |
| S07.BuysExactly | src/speedtrader/quant/strategies/s07.py:107-217 | a BUY iff the close lies above twenty highs and the long average, the body passes 1.5 ATR and DI+ is above DI-; and its levels |
| S07.SellsExactly | src/speedtrader/quant/strategies/s07.py:107-217 | a SELL on the mirrored condition, by reflection |
| S07.CodeExactly | src/speedtrader/quant/strategies/s07.py:107-152 | which reason for no signal |
| Trend.RisingBreakoutBuys | src/speedtrader/quant/strategies/s07.py:107-217 | from prices to signal: in a rising market S07 buys iff the close passes the last high with a body over 1.5 ATR, and never sells |
| Trend.FallingBreakoutSells | src/speedtrader/quant/strategies/s07.py:107-217 | in a falling market it sells on the mirrored condition, and never buys |
| S07.DecisionReflects | src/speedtrader/quant/strategies/s07.py:153-217 | a BUY becomes the reflected SELL and the other way round |
| Scoring.CandleQualityPenalty | src/speedtrader/quant/scoring.py:120-151 | never positive, never below minus ten |
| Scoring.WickPenalty | src/speedtrader/quant/scoring.py:154-175 | minus five, minus four or nothing |
| Scoring.AvgVolume | src/speedtrader/quant/scoring.py:178-192 | the mean volume of up to `count` newest bars, zero without bars |
| Scoring.VolumeBonus | src/speedtrader/quant/scoring.py:195-211 | zero, four or eight |
| Scoring.CandleExactly | src/speedtrader/quant/scoring.py:120-151 | which body share of the range costs how much; the two deductions never add up, so the floor never binds |
| Scoring.WickExactly | src/speedtrader/quant/scoring.py:154-175 | four for a bar that closes where it opened, five for a wick longer than the body on the side of the trade |
| Scoring.VolumeExactly | src/speedtrader/quant/scoring.py:178-211 | eight above 1.5 times the mean volume, four above 1.2 times, none without volume |
| Scoring.VolumeOfOneMore | src/speedtrader/quant/scoring.py:178-192 | a newer bar adds its volume to the sum |
| Scoring.WickOnlyForBreakouts | src/speedtrader/quant/scoring.py:100-112 | the wick term applies to strategies 7, 10 and 13 only |
| Scoring.Accumulator.Add | src/speedtrader/quant/scoring.py:225-250 | the total stays the sum of the recorded terms |
| Scoring.ScoreSignal | src/speedtrader/quant/scoring.py:253-287 | the total is the base plus the plain sum of the terms (floor and cap never bind), the components add up to the bonus, and only a series without bars is refused |
| Scoring.ScoreReflects | src/speedtrader/quant/scoring.py:120-207 | the terms are the same for the reflected series and direction |
| Mirror.SignalAndScoreReflect | src/speedtrader/quant/strategies/s07.py:107-217 | signal reflected, total score unchanged, through features, strategy and scoring |
| Mirror.TradeReflects | src/speedtrader/evaluation/backtest.py:185-203 | a reflected trade has the same exit, bars held and R |
| Mirror.WalkReflects | src/speedtrader/evaluation/backtest.py:232-272 | strategies that mirror each other give mirrored trade lists |
| Mirror.BacktestReflects | src/speedtrader/evaluation/backtest.py:206-272 | S07 on a series and on its reflection: mirrored trades, and at every cost the same equity curve, total, expectancy and profit factor |
| Mirror.FiguresReflect | src/speedtrader/evaluation/backtest.py:118-153 | mirrored trades have the same curve, drawdown, total, expectancy and profit factor |
| Measures.RoundMonotone | src/speedtrader/risk/measures.py:38 | rounding never reverses an order |
| Measures.RoundExactly | src/speedtrader/risk/measures.py:38 | the nearest unit, the even one of two that are equally near |
| Measures.ExposurePct | src/speedtrader/risk/measures.py:24-75 | the three exposure loops as one: sum of contributions, a missing stop counting as one full unit |
| Measures.SumOfOne | src/speedtrader/risk/measures.py:24-75 | what one position adds: money to the stop in percent of the balance, one unit of risk without a stop, nothing out of scope |
| Measures.ExposureGrows | src/speedtrader/risk/measures.py:24-75 | a position anywhere in the book never lowers any exposure |
| Measures.HasCorrelatedSameDirection | src/speedtrader/risk/measures.py:113-137 | blocked iff the largest correlation of an open same-direction position passes the threshold, with that position's symbol |
| Measures.BlockedExactly | src/speedtrader/risk/measures.py:113-137 | blocked iff the signal has closes and some open same-side position in another symbol correlates above the threshold, or the threshold is negative |
| Measures.WindowExactly | src/speedtrader/risk/measures.py:125-134 | the newest closes, one more than the look-back |
| Measures.BlockedNamesOne | src/speedtrader/risk/measures.py:113-137 | the named symbol belongs to an open position in another symbol with that correlation |
| Measures.BlockedGrows | src/speedtrader/risk/measures.py:113-137 | one more position never unblocks |
| Measures.SizePosition | src/speedtrader/risk/measures.py:190-268 | size, risk, multiplier and cap flag; risk at most 101% of the budget for every combination of factors, plus half a millionth of a share when fractional |
| Measures.KellyExactly | src/speedtrader/risk/measures.py:144-172 | one while idle; else one plus the fraction of the expected win per unit won, within floor and ceiling |
| Measures.MultiplierExactly | src/speedtrader/risk/measures.py:208-240 | the product of the factors that apply, brought into the configured range |
| Measures.SizeIsGreatest | src/speedtrader/risk/measures.py:242-260 | the greatest whole number of shares within the multiplier's share of the budget, or, if that risks more than 101%, within the budget |
| Measures.SizedWithinBudget | src/speedtrader/risk/measures.py:249-260 | the 101% limit for every multiplier |
| Measures.FractionsKeepTheLimitExactly | src/speedtrader/risk/measures.py:249-263 | rounding fractional sizes never passes the limit iff the size that risks the whole limit does not round up |
| Measures.FractionPassesTheLimit | src/speedtrader/risk/measures.py:249-263 | 1.6 millionths of a share round to two and risk 200 on a limit of 161.6 |
| Measures.QuantityDropsExactly | src/speedtrader/risk/measures.py:249-260 | when a larger multiplier buys fewer shares |
| Measures.QuantityNotMonotone | src/speedtrader/risk/measures.py:249-260 | 1.01 buys 101 shares where 1.02 buys 100 |
| Measures.SizeReopensExactly | src/speedtrader/risk/measures.py:249-260 | when a smaller multiplier buys something although the larger one buys nothing |
| Measures.NoSharesExactly | src/speedtrader/risk/measures.py:246-260 | for every multiplier: no whole share is bought iff it scales the base below one, or the base is under one share and the size is capped back to it |
| RiskGate.Evaluate | src/speedtrader/risk/engine.py:66-241 | every applicable rule is recorded in order with its outcome and reason, and verdict, blocking reason and size are those of a gate that stops at the first failure |
| GateMeaning.ApprovesExactly | src/speedtrader/risk/engine.py:66-241 | approved iff the account may trade, the signal is good, the book has room, nothing correlates and a share is bought; for that size, reduced iff the multiplier is below one |
| GateMeaning.RulesExactly | src/speedtrader/risk/engine.py:66-197 | a rule is evaluated iff its input is there and it is switched on |
| GateMeaning.RulesAscend | src/speedtrader/risk/engine.py:66-197 | rules are evaluated once each, in one fixed order |
| GateMeaning.LowestRankBlocks | src/speedtrader/risk/engine.py:199-210 | the reason is that of the first failing rule in that order |
| RiskGate.CheckBook | src/speedtrader/risk/engine.py:143-149 | duplicate and position-count rules |
| RiskGate.CheckExposure | src/speedtrader/risk/engine.py:151-166 | heat, symbol and sector exposure rules |
| RiskGate.CheckCorrelation | src/speedtrader/risk/engine.py:168-178 | the correlation rule, naming the position it found |
| RiskGate.CountOpenPositions | src/speedtrader/risk/state.py:110-117 | the number of open positions of one symbol and strategy |
| RiskGate.FirstFailure | src/speedtrader/risk/engine.py:15-20 | none iff every rule passes |
| RiskGate.RecordFindsFirst | src/speedtrader/risk/engine.py:15-20 | the first failed check of a complete record is the rule a short-circuit run stops at |
| RiskGate.FailureSpeaks | src/speedtrader/risk/engine.py:199-210 | a failing rule always has a reason text, so the fallback to the rule's name is never taken |
| RiskGate.FailureStays | src/speedtrader/risk/engine.py:143-178 | no rule that failed passes with one more position of non-negative quantity |
| RiskGate.GateIsMonotone | src/speedtrader/risk/engine.py:143-241 | a rejected signal stays rejected in a fuller book, blocked no later in the order |
| RiskGate.GateReopensExactly | src/speedtrader/risk/engine.py:143-241 | for every configuration: a fuller book turns a rejection into an approval iff no rule fails in it, the old multiplier bought nothing and the new one buys a share |
| RiskGate.HotterBookReopensTheGate | src/speedtrader/risk/engine.py:212-241 | a signal, account and configuration where one more open position turns the rejection into an approval |
| RiskGate.EvaluateBothBooks | src/speedtrader/risk/engine.py:66-241 | the gate run on both books: rejected on the emptier, approved on the fuller |
| Contracts.Filter | src/speedtrader/options/contracts.py:204-238 | eligible contracts in chain order; each other one counted under the first rule it breaks; the counts add up |
| Contracts.Minimum | src/speedtrader/options/contracts.py:246-255 | the first of the least by strike distance, expiry distance and symbol |
| Contracts.EligibleExactly | src/speedtrader/options/contracts.py:204-238 | a contract is kept iff it is in the chain and breaks no rule |
| Contracts.EligibleMeans | src/speedtrader/options/contracts.py:211-238 | a contract breaks no rule iff it meets every condition of the policy at once |
| Contracts.FaultIsFirst | src/speedtrader/options/contracts.py:211-238 | the reason for a rejection is the first filter, in their order, that the contract fails on its own |
| Contracts.FaultOf | src/speedtrader/options/contracts.py:211-238 | the first rule a contract breaks, in the order of the filters; one that breaks none has a sound two-sided quote |
| Contracts.SelectContract | src/speedtrader/options/contracts.py:179-265 | the most preferred eligible contract; fails iff none is eligible; considered = eligible + rejected |
| Contracts.ChosenMeans | src/speedtrader/options/contracts.py:179-265 | the chosen contract on the fields: right side, window, quote and multiplier; no eligible one has a nearer strike, then a nearer expiry, then a lower symbol |
| Contracts.StringBelowExactly | src/speedtrader/options/contracts.py:246-255 | symbols compare by the first character that differs, a prefix first |
| Contracts.BeforeTransitive | src/speedtrader/options/contracts.py:246-255 | the preference order is transitive |
| Contracts.BeforeIsTotal | src/speedtrader/options/contracts.py:246-255 | contracts with different symbols are never tied |
| Contracts.OrderDoesNotMatter | src/speedtrader/options/contracts.py:246-255 | the best contract is the same in every rearrangement of a chain with distinct symbols |
| Contracts.TalliesAgree | src/speedtrader/options/contracts.py:204-210 | the rejection counts are the same in every rearrangement |
| Contracts.OneChoiceOnly | src/speedtrader/options/contracts.py:246-255 | one chain has one choice |
| Contracts.SelectionIsOrderIndependent | src/speedtrader/options/contracts.py:179-265 | for distinct symbols every permutation of the chain gives the same result, tally included |
| OptionsRisk.FloorIsGreatest | src/speedtrader/options/risk.py:124-150 | a count stays within an amount iff it is at most the floor of the quotient |
| OptionsRisk.FitsExactly | src/speedtrader/options/risk.py:124-156 | a count meets all limits iff it is at least one and at most the least of the three bounds |
| OptionsRisk.SizeOptionPosition | src/speedtrader/options/risk.py:95-176 | the greatest count within risk budget, contract ceiling and remaining book allowance; refused iff there is none, and for which cause; which limits were run into |
| OptionsRisk.BookStaysCapped | src/speedtrader/options/risk.py:138-156 | over any sequence of approvals at a fixed balance the open premium never passes the concentration cap |
| OptionsRisk.SizeAll | src/speedtrader/options/risk.py:95-176 | sizing one contract after the other keeps the cap at every point |
| Orchestrator.OptionsOrchestrator.Run | src/speedtrader/app/options_orchestrator.py:123-318 | decisions, registry, journal and broker after a run: exactly the approved order is submitted, exactly when nothing stops it; state, stage and contract of every decision; which errors leave the run without one |
| Orchestrator.OptionsOrchestrator.Finish | src/speedtrader/app/options_orchestrator.py:322-336 | one decision appended, or the store's refusal leaves the run |
| Orchestrator.PlanTrade | src/speedtrader/app/options_orchestrator.py:145-218 | what the steps before the review come to: the one approved contract and count, or none; an outage is FAILED and a refusal is REJECTED |
| Orchestrator.OptionsOrchestrator.Act | src/speedtrader/app/options_orchestrator.py:229-318 | the review, the licence and the submission of an approved trade |
| Orchestrator.OptionsOrchestrator.Execute | src/speedtrader/app/options_orchestrator.py:269-318 | one submission under a fresh licence for exactly this order, and the decision that reports its outcome |
| Orchestrator.OneApprovalOnly | src/speedtrader/app/options_orchestrator.py:145-218 | the same inputs approve at most one contract and one count |
| Orchestrator.ReviewOnlySubtracts | src/speedtrader/app/options_orchestrator.py:229-266 | whatever the AI review says or raises, a run makes the broker call of the run without a review, or none; a veto or an error changes nothing outside |
| Orchestrator.BrokerHearsTheApprovedOrder | src/speedtrader/app/options_orchestrator.py:269-306 | the broker receives at most one order a run: a day order to buy the approved contract and count to open, limited within half a millionth of its ask, under the licence's id |
| Orchestrator.ApprovedOrderGoesOut | src/speedtrader/app/options_orchestrator.py:269-306 | an approved order that is to be executed reaches the broker iff the nonce is unused and the journal, if any, reads to its end without the id and takes the write-ahead |
| Orchestrator.ApprovedOrderFits | src/speedtrader/app/options_orchestrator.py:198-277 | limit x 100 x count stays within balance x risk percentage x multiplier and, with the open premium, within the book's share, up to the rounding of the limit; one contract more passes a bound |
| Orchestrator.ApprovedMeans | src/speedtrader/app/options_orchestrator.py:145-218 | what an approval rests on, in the inputs: account, signal, market, spread, gap and book |
| Orchestrator.DecisionTellsTheReply | src/speedtrader/app/options_orchestrator.py:281-318 | from the broker's reply: EXECUTING with the count, REJECTED at the execution guard, or FAILED because an order may exist |
| AiReview.Ask | src/speedtrader/agents/veto.py:245-262 | abstains on a failing provider and on every malformed reply; raises iff a known verdict comes with a whole confidence beyond every double |
| AiReview.Debate | src/speedtrader/agents/veto.py:264-290 | vetoes iff the judge gives a well-formed veto; raises iff one of the replies it asks for does |
| AiReview.FourHundredZerosOverflow | src/speedtrader/agents/veto.py:205 | a one with four hundred zeros is beyond every double |
| AiReview.HugeConfidenceRaises | src/speedtrader/agents/veto.py:202-208 | a veto with that confidence raises |
| Orchestrator.OneDecisionExactly | src/speedtrader/app/options_orchestrator.py:123-336 | a run records exactly one decision iff the store accepts, no policy it gets to fails to validate, the review of an approved trade does not raise and searching the journal does not raise; otherwise none |
| Orchestrator.HugeConfidenceLosesTheDecision | src/speedtrader/app/options_orchestrator.py:231-266 | a veto with a confidence of a one and four hundred zeros: the approved trade is not executed and no decision is recorded |
| Orchestrator.RaisesExactly | src/speedtrader/execution/options_adapter.py:210-213 | a licensed submission raises iff its nonce is unused and searching the journal for it raises |
| Orchestrator.PassedOnWithinExactly | src/speedtrader/app/options_orchestrator.py:198-207 | for a configured least and greatest multiplier: everything between them is passed on at most as the greatest iff the greatest does not round up and, unless it is at least one, nothing between them rounds to zero |
| Orchestrator.LossWithinMaximum | src/speedtrader/app/options_orchestrator.py:198-211 | under such a configuration the approved order's greatest loss is at most balance x risk percentage x the configured greatest multiplier |
| Oversized.ZeroMultiplierOversizes | src/speedtrader/app/options_orchestrator.py:198-211 | a run in which a multiplier of 0.00004 is passed on as one: ten contracts at a thousand where four cents were allowed |

## Left out

- HMAC, SHA-256, canonical JSON and the "|"-joined signing message: hashes and signatures are injective values, and nonces are fresh.
- JSON encoding: the codec is any one that round-trips, whose proper prefixes and glued lines do not decode; text that is not UTF-8, objects nested too deep for the parser, mixed naive and aware times, file modes, fsync, the writability probe and universal newlines are not modelled.
- Quotes finer than a millionth: the limit price of an order is rounded to one.
- Orders that reach the market after the submitting process died: in the model a call takes effect at contact or never.
- A journal that already holds records at the first state of a run: runs of `Protocol` start from an empty file.
- Guarantees.AtMostOneCallPerId: assumes each completed write-ahead met a newline-terminated file; without it the claim is false (`Refinement.TornTailForgetsAndRepeats`).
- Guarantees.NoOrderForgotten: the same assumption.
- Guarantees.LogNeverDeniesAnOrder: the same assumption.
- Guarantees.SafeStart: the same assumption.
- Refinement.SafeRestart: the same assumption, and broker answers that report absence or refusal only of orders that do not exist.
- Measures.SizePosition: the budget limit is stated for a non-negative `risk_per_trade_pct`.
- RiskGate.GateIsMonotone: needs `Measures.TameSizing`; for every configuration see `RiskGate.GateReopensExactly`.
- Orchestrator.LossWithinMaximum: needs `Orchestrator.StaysWithin` of the configured bounds; beyond it the claim is false (`Oversized.ZeroMultiplierOversizes`).
- Refinement.SubmitRefines: on a journal with an unconvertible line the protocol has no step for the exception; `Adapter.SubmitRelation` says what is left.
- Running the same runtime object twice: of a second run only the bounds are stated.
- A recovery that raises before the loop: the exception ends the runtime, and no cycle runs.
- Market.ValidateSeries: the bar index and message texts.
- The `observed` and `limit` figures of the gate's checks, its heat and breakdown fields, and the constructor's refusal of a fail-open configuration.
- Pearson correlation and log returns: an uninterpreted function of the two price windows.
- The cost branch of the decision cycle: an approved size always has a positive premium, count and multiplier, so `estimate_options_cost` cannot refuse it; fees themselves are straight-line arithmetic.
- The portfolio fingerprint, the options trace and the prompt of the AI review: the book is one value given to minting and to submission, and the review is one bit.
- The decision store's validation, duplicate check and file layout: it accepts or refuses.
- A store that refuses the record after an order was submitted: the error leaves the run with the order placed; only the intent journal knows of it.
- EMA convergence warnings, win rate, standard deviation and report formatting.
- Alpaca, market data, MCP transport, dashboard, replay and fingerprinting: network calls, rendering and hashing of records.
- IEEE floating point: NaN and rounding error do not exist in the reals used here; the NaN of a missing stop is an option value, and a bar with a number that is not finite is a case of its own.
