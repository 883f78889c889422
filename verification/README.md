# A model of the trading server's state machines, with proofs

The server receives TradingView signals over a webhook, puts them through a risk pipeline and books
futures positions, while several trackers keep virtual ledgers beside it. The exchange clients are
plumbing; the state machines between "a signal arrives" and "a position is booked" are modelled
here, in the form the code has: classes whose methods update their fields in place, each method
proved against a specification function, and lemmas about every run of those functions.

| file | component | what is proved about every run |
|---|---|---|
| `Admission.dfy` | the workers' lock, check, order, register protocol | one position per symbol and one holder per lock in every interleaving |
| `Origins.dfy` | entries and closes through that protocol | every position is some worker's checked entry, side and figures included; every change is a matching close, or external |
| `Overshoot.dfy` | the portfolio caps under that protocol | each of the seven is overshot by at most W - 1 entries, all of them at once attain it, and only W = 1 is safe |
| `PortfolioRisk.dfy` | the entry check | the check is exact, the caps it tests stay true, its counters partition its verdicts |
| `RiskCalendar.dfy` | the daily and weekly sums | what both sums mean after any calls, and when the weekly one is the week's |
| `ConcurrentCloses.dfy` | TP, SL and external closes among concurrent workers | booked + open = registered in every interleaving |
| `Reconciliation.dfy` | the sync with the exchange | set equality and idempotence, each if and only if no slot is skipped; when a change goes unsaved |
| `SyncExclusivity.dfy` | the sync and the workers' rule | one position per symbol after a sync, if and only if the snapshot and the paper positions allow it |
| `Restart.dfy` | save, load and the first sync | which paper positions survive, exactly |
| `ShadowLedger.dfy` | the futures shadow tracker | what each signal opens and closes and at what profit; all figures are folds over the full history, no symbol held on both sides |
| `SpotLedger.dfy` | the spot shadow tracker | seven percentages, four closes, quantities conserved, cached grades |
| `PaperLedger.dfy` | registration, TP, SL, external closes and their booking | what each close books, and when it gains; money and quantity conserved, peak correct |
| `Backtest.dfy` | the backtester | conservation over a whole run; when one-pass drawdown is the worst fall |
| `SymbolLearner.dfy` | the learner's counters, ring buffer and session figures | each refines a definition over the history |
| `RateLimiters.dfy` | token bucket, symbol locks, webhook and dashboard limits | interval bounds, the dashboard's shown to be sharp |
| `StatePersistence.dfy` | the crash-safe save | what a load returns after any crash |
| `Base64.dfy` | the decoder of Basic credentials | round trip with section 4 of RFC 4648 |
| `SignalText.dfy` | the repair of malformed signal text | only quotes before commas are inserted; the growing loop ends |
| `FiniteSums.dfy` | sums over maps and sequences, capped histories | used by the others |

Conventions. Doubles are `real`. Clocks, exchange answers and failures are arguments. Composite
string keys (`SYM_TF_OID`, `SYM_side_ext`, `SYM:TF:SIDE`) are datatypes. A hash map's iteration order
is an arbitrary choice, so a theorem holds for every order. `ghost` fields keep the full histories
that the running code caps or forgets; `Abs()` is the value the specification functions speak about.

## Findings

Properties that fail as one would first state them, each with its exact condition and an input at which it fails,
in a lemma of its own or as the half of the condition that needs one.

- Portfolio caps are checked in one critical section and the position is registered in another, so W
  workers can exceed every one of the seven caps by W - 1 entries, 500 * (W - 1) in margin, in a single run
  (`Overshoot.OvershootAttained`), and no cap by more; all of them always hold if and only if W = 1
  (`Overshoot.OvershootIff`).
- A sync keeps at most one position per symbol if and only if the exchange has one open slot per symbol, side
  changes aside, and no young paper position sits beside a slot of its symbol
  (`SyncExclusivity.SyncKeepsOnePerSymbolIff`, `PaperBesideSlot`).
- A sync skips every missing slot of a symbol for which an imported position has just changed side. A slot that
  is neither in the book nor the one changed to is lost that way, which takes a side other than `long` and
  `short` (`Reconciliation.BlankSideIsSkipped`); then, and only then, real positions and exchange differ and a
  second sync changes the book again (`SyncExact`, `SyncIdempotent`).
- A sync changes the book without saving it if and only if, before it, no position is due for removal, every
  slot of the exchange is held and some position on the exchange still counts as paper
  (`Reconciliation.UnsavedChangeIff`); one paper position that is open on the exchange is enough
  (`PaperTurnsRealUnsaved`).
- The engine's mark for a signal without a timeframe names the timeframe "unknown" where the tracker files the
  position under "0". In a run whose signals do not themselves say "unknown", a pending mark is settled when its
  position goes if and only if its signal has a timeframe (`ShadowLedger.MarkSettledIff`); an entry without one,
  its mark and its stop leave the mark pending (`PendingAfterItsClose`).
- The weekly sum is cleared by the first call on a Monday only. It is what the current week has earned, whatever
  was earned, if and only if something called on the week's Monday or nothing called before it
  (`RiskCalendar.WeeklyIsThisWeekIff`; `TooMuchFor` gives profits at which it is not).
- A save copies an unreadable main file over a good backup. A crash before the rename then leaves nothing
  to load. Loading is old-or-new at every point of a save exactly when it does not start that way
  (`StatePersistence.LoadIsOldOrNewIff`).
- The one-pass drawdown is the worst fall over all pairs while equity is not negative. The first negative
  point keeps it so if and only if every positive point before it was at the peak
  (`Backtest.ExactAfterNextPointIff`); a four-signal run reports under 237% for a fall of 360%
  (`Backtest.ReplayMissesAFall`).
- The learner's moving average stays within the results it has seen exactly when the configured weight is
  between 0 and 1 (`SymbolLearner.EmaAmongResultsIff`).
- A dashboard client can have twice the configured requests accepted within one second, but only one that
  calls within a minute of the steady clock's origin, whose first window no request has opened
  (`DashboardLimit.TwiceTheLimitIsAttained`). For all others twice the limit less one is the sharp bound
  for a half-open minute (`DashboardLimit.LateMinuteBound`, `LateBoundIsAttained`), so the configured limit
  itself holds for them if and only if it is 1 (`LateLimitHoldsIff`).
- Opening times are not saved. The first sync after a restart therefore expires every paper position that
  is not on the exchange, however young (`Restart.PaperSurvivesRestartIff`).

## Model

| member | source | states |
|---|---|---|
| Admission.SymbolExclusivity | include/execution/execution_engine.hpp:943-1274 | From at most one position per symbol and idle workers, every interleaving of entries, closes, external closes and balance updates keeps at most one position per symbol and at most one holder per symbol lock. |
| Admission.ExclusiveStep | include/core/rate_limiter.hpp:79-125 | No atomic step of any worker lets two workers hold one symbol's lock, nor a holder's symbol leave the locked set. |
| Admission.ConflictsIff | include/execution/execution_engine.hpp:1165-1190 | The two scans together block an entry exactly when the symbol has a position of either side. |
| Admission.CheckKeeps | include/execution/execution_engine.hpp:1165-1197 | Scanning and checking under the held lock leaves a worker with a pending entry on a symbol that has no position, in either direction. |
| Admission.RegisterKeeps | include/execution/execution_engine.hpp:1226-1274 | Registering after the check, in a later critical section, still creates no second position on the symbol. |
| Admission.ExclusivityStep | include/execution/execution_engine.hpp:1165-1551 | Every atomic step, including partial and full closes and the WebSocket removal, keeps the exclusivity invariant. |
| Admission.StepsDriveTheLocks | include/execution/execution_engine.hpp:943-949 | The workers change who holds what only as the lock manager's attempt and unlock say, and only the holder unlocks. |
| Admission.LocksAreHeld | include/core/rate_limiter.hpp:79-125 | In every interleaving the locked symbols are exactly those some worker holds, so no lock is lost. |
| Origins.EveryPositionHasItsEntry | include/execution/execution_engine.hpp:943-1274 | From idle workers, in every interleaving, each position not there at the start was taken as an entry signal, allowed by the check and registered by one worker in one stint: symbol, price and timeframe ("unknown" for none) are the signal's, the side is long for a buy and short otherwise, leverage and stop are those checked, the quantity is the one checked less what was booked as closed, and it is real as registered. |
| Origins.EveryChangeHasItsCause | include/execution/execution_engine.hpp:1307-1551 | A position changes or goes only by an external close, or by a worker that took a close signal for its symbol and side, "bull" meaning long; TP1 then leaves 67% of it, TP2 half, TP3 and SL nothing. |
| Origins.EveryWorkerExplained | include/execution/execution_engine.hpp:1165-1240 | Whatever a worker carries is what its signal and its own check gave it since it was last idle. |
| Origins.OrdersTakeIds | include/execution/execution_engine.hpp:1198-1206 | Each order sent, accepted or not, takes one id, and nothing else does. |
| Origins.UndisturbedEntry | include/execution/execution_engine.hpp:943-1274 | A worker alone, with the lock free, no position on the symbol and the check passed, registers exactly the entry under the next order id and leaves locks, balance and other positions as they were. |
| Origins.UndisturbedClose | include/execution/execution_engine.hpp:1307-1551 | A worker alone closes the level's share of a position of its signal's symbol and side, and nothing else changes. |
| Origins.GivingUpUndoes | include/execution/execution_engine.hpp:943-1551 | A worker that gives up, by a lock timeout, a filter or a refused close, leaves everything as it found it, the lock included. |
| Origins.FailedEntryUndoes | include/execution/execution_engine.hpp:1165-1206 | So does an entry blocked by a scan or the check, and one whose order is rejected but for the order id; which of the two it is follows from the book's positions on the symbol and the verdict. |
| Overshoot.BoundedOvershoot | include/execution/execution_engine.hpp:1165-1274 | In every interleaving of W workers from a book within the caps, at a fixed balance, none of the four count caps is exceeded by more than W - 1 and none of the three margin caps by more than 500 * (W - 1), weighted by the correlation factor in the correlated one. |
| Overshoot.CapOvershootBounded | include/execution/execution_engine.hpp:1165-1274 | With balances changing during the run, each figure stays within the largest limit in force plus what W - 1 entries can weigh in it. |
| Overshoot.AllowedFits | include/risk/portfolio_risk.hpp:229-323 | An allowed entry that counts for a cap fits under that cap together with the whole book, for each of the seven. |
| Overshoot.CheckKeepsBound | include/risk/portfolio_risk.hpp:229-323 | A passing check adds one pending entry, which with the book alone fits under the cap, so registered plus pending stays within the cap plus what W - 1 entries can weigh. |
| Overshoot.RegisterKeepsBound | include/execution/execution_engine.hpp:1226-1274 | Registering moves an entry from pending to open and keeps registered plus pending within the same bound, in each of the seven figures. |
| Overshoot.OvershootAttained | include/execution/execution_engine.hpp:1165-1274 | For every W one interleaving ends with all of the caps exceeded by exactly W - 1 entries. |
| Overshoot.OvershootIff | include/execution/execution_engine.hpp:1165-1274 | All seven caps hold in every run of W workers, for every configuration and start, if and only if W = 1. |
| ConcurrentCloses.EveryInterleavingBalances | include/execution/execution_engine.hpp:1307-1551 | In every interleaving, external closes between reading and closing included, quantity booked + quantity open = quantity at the start + quantity registered, for every position. |
| ConcurrentCloses.GoneMeansBookedInFull | include/execution/execution_engine.hpp:1307-1551 | From idle workers, a position is gone if and only if all of it has been booked, and never more than all. |
| ConcurrentCloses.StepBalances | include/execution/execution_engine.hpp:1344-1370 | No step books more of a position than is open, and each changes the open quantity by what it books or registers. |
| ConcurrentCloses.ReadsStep | include/execution/execution_engine.hpp:1321-1355 | What a worker read of a position is still true when it closes it, unless the position is gone. |
| ConcurrentCloses.FoundIdsStep | include/execution/execution_engine.hpp:1198-1200 | No position is registered under the key a worker has found. |
| PortfolioRisk.AllowedExactly | include/risk/portfolio_risk.hpp:183-327 | From a book within its caps, an entry is allowed if and only if it passes the notional, liquidation and breaker guards and the book with it is again within all seven caps. |
| PortfolioRisk.FirstObjectionBlocks | include/risk/portfolio_risk.hpp:194-326 | On the configuration's own fields: an entry is blocked by the first of the ten tests, in turn, that objects to it, under the caps of the mode, the limit of 10 and 30% where a timeframe has none of its own, and the 500 backstop; it is allowed exactly when none objects. |
| PortfolioRisk.CapsSpelledOut | include/risk/portfolio_risk.hpp:229-323 | Being within the caps, on the configuration's own fields: those of live trading in live mode, those of shadow mode in shadow mode. |
| PortfolioRisk.ModesApart | include/risk/portfolio_risk.hpp:233-318 | A live verdict is the same whatever the shadow caps are, and a shadow verdict whatever the live caps are. |
| PortfolioRisk.MarginIs | include/risk/portfolio_risk.hpp:282-286 | A position's margin times its leverage is the absolute value of its price times its quantity. |
| PortfolioRisk.SlGuardIsMarginLoss | include/risk/portfolio_risk.hpp:200-219 | The liquidation guard fires exactly when hitting the stop would lose more than nine tenths of the entry's margin, on either side. |
| PortfolioRisk.ShrinkingKeepsCaps | include/risk/portfolio_risk.hpp:229-323 | Removing positions, or shrinking them, keeps every cap and raises neither count nor margin. |
| PortfolioRisk.ReduceLeaves | include/execution/position_manager.hpp:131-140 | Reducing leaves the position exactly while some quantity is left, with that much less of it, and no other position is touched. |
| PortfolioRisk.ReduceShrinks | include/execution/position_manager.hpp:131-140 | Reducing a quantity, with removal at zero, never raises any position's margin. |
| PortfolioRisk.StepKeepsCaps | include/risk/portfolio_risk.hpp:183-327 | A checked entry, a removal or a reduction keeps all caps true. |
| PortfolioRisk.CapsForever | include/risk/portfolio_risk.hpp:183-327 | With one worker and fixed balance and mode, all seven caps hold in every reachable book. |
| PortfolioRisk.LiveLimitHolds | include/risk/portfolio_risk.hpp:229-240 | In live mode every reachable book has at most the live number of positions. |
| PortfolioRisk.PortfolioRiskManager.Examine | include/risk/portfolio_risk.hpp:194-326 | The ten tests in code order return the verdict of the specification; only an expired breaker is released, and only when it is reached. |
| PortfolioRisk.PortfolioRiskManager.BreakerHoldsIff | include/risk/portfolio_risk.hpp:404-412 | The breaker, once active, holds for exactly the configured number of minutes. |
| PortfolioRisk.PortfolioRiskManager.CheckEntry | include/risk/portfolio_risk.hpp:183-327 | The verdict, recorded once in the counters, which stay the tallies of all verdicts, per reason included and passed + blocked making up all of them; the calendar reset of the same call. |
| RiskCalendar.SumsMean | include/risk/portfolio_risk.hpp:414-434 | After any calls in order, the daily sum is what the current day has earned and the weekly sum what was earned since the latest Monday with a call on it, or since the start without one. |
| RiskCalendar.WeeklyIsThisWeekIff | include/risk/portfolio_risk.hpp:414-434 | The weekly sum is the current week's, whatever was earned, if and only if something called on the week's Monday or nothing called before it. |
| PortfolioRisk.PortfolioRiskManager.CountSameDirection | include/risk/portfolio_risk.hpp:243-250 | The scan counts exactly the positions of the entry's direction. |
| PortfolioRisk.PortfolioRiskManager.CountInTf | include/risk/portfolio_risk.hpp:268-271 | The scan counts exactly the positions of the entry's timeframe. |
| PortfolioRisk.PortfolioRiskManager.SumTfMargin | include/risk/portfolio_risk.hpp:282-286 | The scan adds up the margins of exactly the positions of the timeframe. |
| PortfolioRisk.PortfolioRiskManager.SumMargin | include/risk/portfolio_risk.hpp:300-317 | The scan adds up the margins of the whole book. |
| Reconciliation.SyncExact | include/execution/position_manager.hpp:299-405 | After a sync, in any iteration order, the slots of real positions equal the exchange's open slots if and only if no slot is skipped by the side-change guard. |
| Reconciliation.TwoSidesSkipNothing | include/execution/position_manager.hpp:380-384 | With sides long and short only, no slot is skipped. |
| Reconciliation.SyncReconciles | include/execution/position_manager.hpp:299-405 | So with those sides, real positions and exchange coincide after every sync. |
| Reconciliation.PaperUntouched | include/execution/position_manager.hpp:350-359 | A position not on the exchange comes through unchanged if it is paper and under four hours old, and only then. |
| Reconciliation.SurvivesIff | include/execution/position_manager.hpp:350-359 | A position's key is in the book after a sync if and only if its slot is on the exchange, or it is paper and was opened less than 4 * 3600 * 10^9 ns ago. |
| Reconciliation.NewcomersAsReported | include/execution/position_manager.hpp:326-399 | Whatever a sync puts under a new key, imported or re-sided, carries the exchange's entry price, size and leverage for its slot. |
| Reconciliation.SyncContents | include/execution/position_manager.hpp:299-405 | Whatever is in the book after a sync is an own position, unchanged but for being real when on the exchange; or one whose side the exchange reports reversed, with its side, price, size and leverage and the rest kept; or, under its own new key, an import with all its fields. |
| Reconciliation.SyncIdempotent | include/execution/position_manager.hpp:299-414 | A second sync with the same snapshot and clock, in any order, leaves the book equal if and only if the first skipped nothing; then it removes and imports nothing. |
| Reconciliation.SyncSettles | include/execution/position_manager.hpp:299-405 | After a sync that skips nothing: real means on the exchange, nothing is due for removal, nothing is missing, keys match slots. |
| Reconciliation.ForwardSwipes | include/execution/position_manager.hpp:310-361 | After any prefix of the forward pass: what is to be removed, which symbols changed side, and what the map holds under old and new keys. |
| Reconciliation.NewKeysNeedNoVisit | include/execution/position_manager.hpp:316-345 | Visiting a position inserted during the pass changes nothing, so it does not matter whether the iteration reaches it. |
| Reconciliation.UnsavedChangeIff | include/execution/position_manager.hpp:407-414 | A sync changes the book and is not saved if and only if, before it, no position is due for removal, every slot of the exchange is held and some position on the exchange counts as paper. |
| Reconciliation.UnsavedIff | include/execution/position_manager.hpp:299-414 | A sync removes and imports nothing if and only if, before it, no position is due for removal and every slot of the exchange is held. |
| Reconciliation.PaperTurnsRealUnsaved | include/execution/position_manager.hpp:299-414 | Any single paper position whose slot is open on the exchange becomes real in a sync that is not saved. |
| Reconciliation.BlankSideIsSkipped | include/execution/position_manager.hpp:316-384 | A concrete snapshot after which a position open on the exchange is missing from the book. |
| Reconciliation.OpenSlots | include/execution/position_manager.hpp:280-294 | A slot is open if and only if some row of the response names it with a symbol and a positive size; the last such row says what is open there. |
| Reconciliation.RowsReconciled | include/execution/position_manager.hpp:280-405 | With sides long and short, the real positions after the sync are at exactly the slots of the response's rows with a symbol and a positive size. |
| Reconciliation.PositionManager.SyncPositions | include/execution/position_manager.hpp:237-414 | Without a response nothing changes. Otherwise the loops compute the specified sync and its two counts; with two sides the real positions are then at exactly the slots of the rows with a symbol and a positive size; the state is saved exactly when a count is positive, and a change goes unsaved exactly when nothing was due and some position on the exchange counted as paper. |
| Reconciliation.PositionManager.CollectRows | include/execution/position_manager.hpp:280-294 | The row loop builds the map that OpenSlots speaks of. |
| Reconciliation.PositionManager.MarkReal | include/execution/position_manager.hpp:299-308 | Exactly the positions on the exchange become real. |
| Reconciliation.PositionManager.ForwardPass | include/execution/position_manager.hpp:310-361 | Visiting each key once removes, re-sides and re-keys as specified. |
| Reconciliation.PositionManager.EraseAll | include/execution/position_manager.hpp:362-372 | Exactly the listed keys go. |
| Reconciliation.PositionManager.ReverseImport | include/execution/position_manager.hpp:374-405 | Exactly the missing slots are imported, under their own keys. |
| Reconciliation.PositionManager.ImportMissing | include/execution/position_manager.hpp:380-405 | The import loop adds exactly the slots that pass both of its guards, and counts them. |
| SyncExclusivity.SyncKeepsOnePerSymbolIff | include/execution/position_manager.hpp:299-405 | From one position per symbol a sync leads to one position per symbol again if and only if the exchange has one slot per symbol, side changes aside, and no young paper position is on a symbol that the exchange has open on another side. |
| SyncExclusivity.PaperBesideSlot | include/execution/position_manager.hpp:350-399 | A young paper position beside an open slot of its symbol on another side: after the sync the symbol has two positions. |
| SyncExclusivity.ExclusivityAfterSync | include/execution/execution_engine.hpp:943-1274 | Workers that start on a book synced under that condition keep one position per symbol in every interleaving. |
| Restart.PaperSurvivesRestartIff | include/core/state_persistence.hpp:153-170 | Saved, loaded and synced, a paper position off the exchange survives if and only if the clock is within four hours of its origin; without the restart, if and only if it is under four hours old. |
| Restart.RealPositionsUnaffected | include/core/state_persistence.hpp:153-170 | With sides long and short the real positions after that sync are those the exchange has, with or without the restart. |
| ShadowLedger.EveryRunRefinesHistory | include/execution/shadow_tracker.hpp:376-568 | From a fresh tracker, in every reachable state: entries = closes + open, wins + losses = closes, total PnL is the sum of the full history, the trade lists are its last 5000 and 2000, keys match fields, one side per symbol and timeframe, live-equivalent entries = closes + pending keys + marks of a key already pending. |
| ShadowLedger.NextKeeps | include/execution/shadow_tracker.hpp:53-73 | Each signal or live-equivalent mark keeps all of that. |
| ShadowLedger.EntryHoldsItsSide | include/execution/shadow_tracker.hpp:376-413 | An entry ends holding its side and not the other, touches no other key, and books one reversal close exactly when the other side was held. |
| ShadowLedger.ExitsClose | include/execution/shadow_tracker.hpp:416-450 | A TP or SL leaves everything as it is if and only if no position of its symbol and side is open, "bull" meaning long. Otherwise just one such position goes, its own key's if held, and just one record is added, with the position's symbol, timeframe, side and entry, the signal's price as exit, its kind as reason, 100 of notional, 0.06% of both prices as fee, the move less the fee as profit, and among the live-equivalent ones if and only if it was marked. |
| ShadowLedger.EntriesOpen | include/execution/shadow_tracker.hpp:376-413 | An entry is ignored if and only if its own key is held, "buy" meaning long; otherwise it opens the signal's figures there, and closes the other side as a reversal if that was held. |
| ShadowLedger.OthersIgnored | include/execution/shadow_tracker.hpp:53-73 | Spot signals, signals without a symbol and unknown kinds change nothing. |
| ShadowLedger.RecordRewards | include/execution/shadow_tracker.hpp:482-496 | The ratio of a record times what the stop would have cost, or times 100 without a stop, is its profit; it is 0 when that base is at most 0.0001. |
| ShadowLedger.MarkSettledIff | include/execution/execution_engine.hpp:1215-1222 | In every run from a fresh tracker whose signals do not name the timeframe "unknown", a signal's pending mark is settled when the signal's position goes if and only if the signal has a timeframe. |
| ShadowLedger.StepSettlesIff | include/execution/shadow_tracker.hpp:529-550 | In any single step that takes a signal's position away, the same, whatever other signals name. |
| ShadowLedger.GoneMeansClosed | include/execution/shadow_tracker.hpp:465-559 | A position that goes in a step takes its own mark along and no other. |
| ShadowLedger.UnknownMarkStays | include/execution/shadow_tracker.hpp:125-131 | A mark that names the timeframe "unknown" stays pending for the rest of every run in which no signal does. |
| ShadowLedger.PendingAfterItsClose | include/execution/shadow_tracker.hpp:376-379 | An entry without a timeframe, its mark and its stop: the position is closed, counted once, not as live-equivalent, and the mark is still pending. |
| ShadowLedger.WinExactly | include/execution/shadow_tracker.hpp:465-480 | A close is a win exactly when the move beats the fee paid on both sides. |
| ShadowLedger.StopCostsOneRisk | include/execution/shadow_tracker.hpp:482-496 | Closing at a stop on the losing side loses exactly the planned risk before fees, so the realized ratio is below -1. |
| ShadowLedger.ShadowTracker.TrackSignal | include/execution/shadow_tracker.hpp:53-73 | The dispatch makes one step of the specification. |
| ShadowLedger.ShadowTracker.EnterVirtually | include/execution/shadow_tracker.hpp:376-413 | The new state of an entry. |
| ShadowLedger.ShadowTracker.ExitVirtually | include/execution/shadow_tracker.hpp:416-450 | A TP or SL closes its own key, else some position of the symbol and side, else nothing. |
| ShadowLedger.ShadowTracker.FindBySymbolSide | include/execution/shadow_tracker.hpp:455-462 | Finds a matching position if and only if there is one. |
| ShadowLedger.ShadowTracker.ClosePosition | include/execution/shadow_tracker.hpp:465-559 | The new state of a close, its live-equivalent part included. |
| ShadowLedger.ShadowTracker.MarkLiveEquivalentKey | include/execution/shadow_tracker.hpp:125-131 | The key is pending and the entries count one more. |
| SpotLedger.EveryRunConserves | include/execution/spot_shadow_tracker.hpp:407-603 | In every reachable state: only the seven percentages occur, recorded + open quantity is the position's total, a closed opening recorded exactly its total in one to four closes, figures are folds of the history, grades agree with their definition. |
| SpotLedger.EntriesOpen | include/execution/spot_shadow_tracker.hpp:358-404 | An entry opens a whole position with the signal's figures if and only if it is a buy, its symbol a base followed by KRW on Upbit and by USDT on Bitget, and its own key free; otherwise nothing changes. |
| SpotLedger.ExitsSettle | include/execution/spot_shadow_tracker.hpp:407-462 | A TP or SL leaves everything as it is if and only if it is not bullish or no position of its symbol is open. Otherwise one such position, its own key's if held, is closed by 33% of what is left at TP1 if more than 33% is left, by half at TP2 if more than 50% is, else whole, with one record of that quantity of 50000 won or 100 of notional, and the exchange's fee. |
| SpotLedger.OthersIgnored | include/execution/spot_shadow_tracker.hpp:56-76 | Signals of other markets, without a symbol or of unknown kinds change nothing. |
| SpotLedger.LevelsAreClosed | include/execution/spot_shadow_tracker.hpp:312-316 | The seven percentages are closed under TPs, each TP uses up rank, a TP closes in full exactly when its percentage reaches what is left, and the dust branch is never taken. |
| SpotLedger.FourTakeProfitsClose | include/execution/spot_shadow_tracker.hpp:429-438 | Whatever their levels, n TPs leave rank at most 4 - n, so four close every position. |
| SpotLedger.PartialCloseConserves | include/execution/spot_shadow_tracker.hpp:477-539 | A partial close moves quantity from open to recorded and loses none. |
| SpotLedger.WinExactly | include/execution/spot_shadow_tracker.hpp:491-494 | A close is a win exactly when the move beats the exchange's fee on both prices. |
| SpotLedger.FullCloseConserves | include/execution/spot_shadow_tracker.hpp:542-594 | A full close records exactly what was left. |
| SpotLedger.GradeIgnoresOthers | include/execution/spot_shadow_tracker.hpp:330-347 | A trade of another key leaves a grade as it was, so refreshing one key suffices. |
| SpotLedger.WinRateIsNearest | include/execution/spot_shadow_tracker.hpp:343-345 | The rounded win rate is within half a hundredth of a percent of the true one. |
| SpotLedger.GradeMonotone | include/execution/spot_shadow_tracker.hpp:319-327 | A better win rate or total never lowers the grade; unrated means fewer than five closes. |
| SpotLedger.GradeAtLeast | include/execution/spot_shadow_tracker.hpp:319-327 | Each grade's threshold: five closes, 35%, 45%, 50%, 55% and 65% of wins, the last three with a profit. |
| SpotLedger.FiguresOf | include/execution/spot_shadow_tracker.hpp:330-347 | The three figures a grade is computed from are the number of the key's kept trades, the number of those with a profit, and the sum of their profits. |
| SpotLedger.BookAgrees | include/execution/spot_shadow_tracker.hpp:516-522 | Booking keeps every cached grade equal to its definition until the cap first drops a record, and afterwards that of the key just closed. |
| SpotLedger.NextKeeps | include/execution/spot_shadow_tracker.hpp:56-76 | Each signal keeps the whole run invariant. |
| SpotLedger.SpotShadowTracker.Track | include/execution/spot_shadow_tracker.hpp:56-76 | One step of the specification, and the invariant again. |
| SpotLedger.SpotShadowTracker.EnterVirtually | include/execution/spot_shadow_tracker.hpp:358-404 | The new state of an entry, with its four reasons to ignore it. |
| SpotLedger.SpotShadowTracker.ExitVirtually | include/execution/spot_shadow_tracker.hpp:407-462 | The new state of a TP or SL on the position found. |
| SpotLedger.SpotShadowTracker.FindBySymbol | include/execution/spot_shadow_tracker.hpp:467-474 | Finds a position of the symbol if and only if there is one. |
| SpotLedger.SpotShadowTracker.PartiallyClose | include/execution/spot_shadow_tracker.hpp:477-539 | The new state of a partial close. |
| SpotLedger.SpotShadowTracker.ClosePosition | include/execution/spot_shadow_tracker.hpp:542-594 | The new state of a full close. |
| SpotLedger.SpotShadowTracker.RefreshGrade | include/execution/spot_shadow_tracker.hpp:330-347 | One loop over the kept trades computes the grade's definition, for this key only. |
| PaperLedger.EveryRunBalances | include/execution/trade_recorder.hpp:64-99 | From any restored book and trades, in every reachable state: balance = start + all PnL recorded since, peak is the maximum of the starting peak and every balance, the trade list is the last 2000 of the restored and recorded trades, closed + open quantity is what the position started with. |
| PaperLedger.PeakBoundsBalances | include/execution/trade_recorder.hpp:85-86 | The peak bounds every balance along the history and every earlier peak. |
| PaperLedger.PeakNeverFalls | include/execution/trade_recorder.hpp:85-86 | From one state of a run to the next the peak does not fall, and it is never below the balance. |
| PaperLedger.ClosesSettle | include/execution/execution_engine.hpp:1307-1551 | A close changes the ledger only by settling one position of its symbol and side, "bull" meaning long for TP and SL, and not at all if there is none or it was refused. TP1 books 33% of it, TP2 half, everything else all, at the signal's price if positive, else at the entry for a TP or external close and at the stop for an SL; the record's profit, (exit - entry) * quantity for a long and (entry - exit) * quantity for a short less 0.12% of the exit value, or the exchange's own profit less that fee, goes to the balance. |
| PaperLedger.BalanceRisesIff | include/execution/trade_recorder.hpp:48-99 | So such a close raises the balance if and only if the move in the position's direction beats 0.12% of the exit price. |
| PaperLedger.RegistrationFiles | include/execution/position_manager.hpp:70-92 | A registration files the position as given under the next order id and moves no money. |
| PaperLedger.OnlyFullLevelsEmpty | include/execution/execution_engine.hpp:1329-1334 | A sequence of TP levels empties a position if and only if one of them is neither TP1 nor TP2. |
| PaperLedger.ThirdsInTurn | include/execution/execution_engine.hpp:1329-1334 | TP1 and TP2 in either order leave 33.5% of the quantity for TP3, which takes the rest. |
| PaperLedger.PartialTpKeepsPosition | include/execution/execution_engine.hpp:1347-1368 | In the ledger, exactly TP1 and TP2 leave the position, with the quantity that sequence says. |
| PaperLedger.PnlSplits | include/execution/trade_recorder.hpp:48-59 | PnL and fee of two parts add up to those of the whole. |
| PaperLedger.WinExactly | include/execution/trade_recorder.hpp:48-59 | A close wins exactly when the move beats the round-trip fee on the exit price, on either side. |
| PaperLedger.CloseByKeeps | include/execution/execution_engine.hpp:1307-1551 | A TP, SL or external close keeps money and quantity conserved. |
| PaperLedger.PaperDesk.RegisterPosition | include/execution/position_manager.hpp:70-92 | One registration step. |
| PaperLedger.PaperDesk.FindBySymbolSide | include/execution/position_manager.hpp:57-66 | Finds a matching position if and only if there is one. |
| PaperLedger.PaperDesk.HandleTp | include/execution/execution_engine.hpp:1307-1446 | One TP step: partial or full, paper or real with the exchange's answer. |
| PaperLedger.PaperDesk.HandleSl | include/execution/execution_engine.hpp:1449-1551 | One SL step. |
| PaperLedger.PaperDesk.HandleWsClose | include/execution/execution_engine.hpp:616-626 | One external close, with the exchange's own profit when it reports one. |
| PaperLedger.PaperDesk.HandleEmergencyClose | include/execution/execution_engine.hpp:1888-1900 | The close of an unprotected position, booked whole at the signal's price once accepted. |
| PaperLedger.PaperDesk.HandleManualClose | include/execution/execution_engine.hpp:473-491 | One position of a bulk close, booked whole at its entry price once accepted. |
| PaperLedger.PaperDesk.ReduceQuantity | include/execution/position_manager.hpp:131-140 | Subtracts and erases at zero. |
| PaperLedger.PaperDesk.RecordClose | include/execution/trade_recorder.hpp:90-99 | Books PnL net of fee for the asked quantity, or the whole when none is asked. |
| PaperLedger.PaperDesk.RecordTrade | include/execution/trade_recorder.hpp:64-87 | Appends, caps, and moves balance and peak. |
| Backtest.RunConserves | include/backtest/backtester.hpp:106-117 | After any signals with positive prices and the final expiry: no open position, balance = initial + all PnL - all entry fees, each opening closed to its initial quantity within 1e-12, peak and drawdown are the folds of the equity curve. |
| Backtest.SignalsDo | include/backtest/backtester.hpp:141-264 | What each alert does: "buy" and a bullish re-entry enter long, "sell" and any other re-entry short, an SL closes whole, unknown alerts do nothing; entering ignores the same side, reverses the other, and opens the trade amount unless the margin is over 95% of the balance. |
| Backtest.TpsSettle | include/backtest/backtester.hpp:190-234 | A TP closes tp1Ratio or tp2Ratio of the initial size, as far as that is left, or the rest, at the signal's price, and the position goes when at most 10^-12 is left. |
| Backtest.ExpiryCostsTheFee | include/backtest/backtester.hpp:266-276 | What is still open at the end leaves at its own entry price, for the exit fee. |
| Backtest.ProcessKeeps | include/backtest/backtester.hpp:141-264 | Entry, reversal, TP, SL and re-entry each keep money, quantities and equity figures conserved, quantities never negative. |
| Backtest.ExpireKeeps | include/backtest/backtester.hpp:266-276 | Closing the listed symbols leaves exactly the others open, conserved. |
| Backtest.WinExactly | include/backtest/backtester.hpp:278-284 | A close wins exactly when the move beats the exit fee, on either side. |
| Backtest.SharesOfInitialSize | include/backtest/backtester.hpp:198-216 | TP1, TP2, TP3 in turn close their configured shares of the initial size and then the rest. |
| Backtest.OpeningIsTradeAmount | include/backtest/backtester.hpp:168-185 | An opening is worth the trade amount at its price and pays the fee on it. |
| Backtest.PeakIsMaximum | include/backtest/backtester.hpp:300-304 | The running peak is the maximum of the equity curve. |
| Backtest.OnePassIsPairMaximum | include/backtest/backtester.hpp:300-308 | While equity is not negative the one-pass drawdown is the worst fall over all pairs of an earlier positive and a later point, and at most 100%. |
| Backtest.ExactAfterNextPointIff | include/backtest/backtester.hpp:300-308 | After a curve that was never negative, the next point leaves the one-pass figure equal to the worst fall if and only if it is not negative or every positive point so far was at the peak. |
| Backtest.WorstFallIsPairMaximum | include/backtest/backtester.hpp:300-308 | On every curve, negative points included, the fold that measures a fall to a negative point from the lowest positive one is the worst fall: the reference the figure is compared with. |
| Backtest.OnePassNeverTooLarge | include/backtest/backtester.hpp:300-308 | On every curve the one-pass figure is at most the worst fall. |
| Backtest.ReplayMissesAFall | include/backtest/backtester.hpp:106-117 | Four signals after which the backtester reports less than 237% although its equity fell by 360% from its first point. |
| Backtest.Backtester.Run | include/backtest/backtester.hpp:106-117 | The loop replays the signals and expires the rest in the map's order; its final fields meet the conservation statement. |
| Backtest.Backtester.ProcessSignal | include/backtest/backtester.hpp:141-151 | The dispatch, in its order of tests. |
| Backtest.Backtester.EnterOrReverse | include/backtest/backtester.hpp:153-188 | Ignore the same side, close the other, check the margin, pay the fee, open. |
| Backtest.Backtester.TakeProfit | include/backtest/backtester.hpp:190-234 | Closes the level's share of the initial size, capped by what is left. |
| Backtest.Backtester.Reenter | include/backtest/backtester.hpp:240-248 | Enters in the signal's direction when nothing is open. |
| Backtest.Backtester.Close | include/backtest/backtester.hpp:250-264 | Books the whole position and removes it. |
| Backtest.Backtester.UpdateCurve | include/backtest/backtester.hpp:300-308 | Appends to the curve and moves peak and drawdown. |
| Backtest.Backtester.CloseAllRemaining | include/backtest/backtester.hpp:266-276 | Every symbol open at the start is closed, each once. |
| SymbolLearner.SymbolLearnData.Record | include/risk/symbol_learner.hpp:181-246 | Every figure of the key agrees again with its definition over the history with the new trade. |
| SymbolLearner.StreakAfter | include/risk/symbol_learner.hpp:192-200 | The updated counters are the length of the winless run the history ends in and of the longest winless run anywhere in it. |
| SymbolLearner.EmaAmongResults | include/risk/symbol_learner.hpp:202-207 | With a weight between 0 and 1 the average lies between two results of the history. |
| SymbolLearner.EmaAmongResultsIff | include/risk/symbol_learner.hpp:202-207 | It does so for every history if and only if the weight is between 0 and 1. |
| SymbolLearner.EmaIsWeightedSum | include/risk/symbol_learner.hpp:202-207 | The average in closed form: the newest result weighs alpha, each older one (1 - alpha) times as much as the one after it, the first what is left. |
| SymbolLearner.RingAfter | include/risk/symbol_learner.hpp:243-246 | Writing at the index, moving it round and capping the count keeps the ring equal to the last ten results in order. |
| SymbolLearner.RingFigures | include/risk/symbol_learner.hpp:101-115 | Sum and win count over the slots are those of the last ten results, although the slots are rotated. |
| SymbolLearner.RecentFigures | include/risk/symbol_learner.hpp:101-115 | Over the last ten trades, or all of fewer: the recent average times their number is their sum, the recent rate times their number is how many had a profit. |
| SymbolLearner.SessionsAreSumsOfHours | include/risk/symbol_learner.hpp:42-51 | Each session's figures are the sums of its hours' figures: Asia 0-8, Europe 8-13, the overlap 13-17, America 17-24 UTC. |
| SymbolLearner.TallyCounts | include/risk/symbol_learner.hpp:222-240 | A tally counts the trades recorded in its hours, and those of them with a positive profit. |
| SymbolLearner.WinsAreTallied | include/risk/symbol_learner.hpp:190-200 | The win counter counts the trades with a positive profit, and is the wins of all hours together. |
| SymbolLearner.HistoryAfter | include/risk/symbol_learner.hpp:181-187 | A trade belongs to the key of its symbol and timeframe, "all" for none, and to no other. |
| SymbolLearner.SymbolLearnData.RecentAvgPnl | include/risk/symbol_learner.hpp:101-107 | The mean of the last ten results, 0 without any. |
| SymbolLearner.SymbolLearnData.RecentWinRate | include/risk/symbol_learner.hpp:109-115 | The share of wins among the last ten results, one half without any. |
| SymbolLearner.SymbolLearner.RecordTrade | include/risk/symbol_learner.hpp:181-246 | Each key's data stays valid for exactly the trades of that key; a disabled learner or an empty symbol records nothing. |
| TokenBucket.IntervalBound | include/core/rate_limiter.hpp:26-69 | The tokens granted in any closed interval are at most a full bucket plus rate times its length. |
| TokenBucket.TryKeeps | include/core/rate_limiter.hpp:26-34 | An attempt, granted or not, keeps every run of grants within its allowance. |
| TokenBucket.GrantedIff | include/core/rate_limiter.hpp:26-69 | An attempt is granted if and only if the tokens left plus rate times the time since, up to a full bucket, suffice, and takes exactly what it asks for. |
| TokenBucket.AcquireReturnsIff | include/core/rate_limiter.hpp:37-51 | Waiting alone for n tokens ever ends if and only if n is at most the bucket size. |
| TokenBucket.PauseRefillsOne | include/core/rate_limiter.hpp:48-50 | The truncated pause is long enough for one whole token, and no more than a millisecond longer than that takes. |
| TokenBucket.RateLimiter.constructor | include/core/rate_limiter.hpp:19-23 | Starts full, at the burst size or else the rate. |
| TokenBucket.RateLimiter.TryAcquire | include/core/rate_limiter.hpp:26-34 | Refills, then grants exactly when enough tokens are there. |
| TokenBucket.RateLimiter.Acquire | include/core/rate_limiter.hpp:37-51 | Alone, a request for n tokens within the bucket size is granted after at most n pauses, and once. |
| SymbolLocks.SymbolLockManager.TryLock | include/core/rate_limiter.hpp:81-105 | Takes the lock if and only if nobody holds it. |
| SymbolLocks.SymbolLockManager.Unlock | include/core/rate_limiter.hpp:86-92 | Frees that symbol and no other. |
| WebhookLimit.MinuteBound | include/webhook/http_server.hpp:75-105 | In every state the limiter can be in, no closed 60 s interval holds more than 600 accepts of any one caller. |
| WebhookLimit.SinceIsASuffix | include/webhook/http_server.hpp:82-85 | Popping from the front leaves exactly the times of the last minute. |
| WebhookLimit.AcceptKeeps | include/webhook/http_server.hpp:87-91 | Accepting with fewer than 600 queued keeps accepts 600 apart more than a minute apart. |
| WebhookLimit.EraseAllKept | include/webhook/http_server.hpp:93-102 | The cleanup changes no caller's queue. |
| WebhookLimit.WebhookRateLimiter.Check | include/webhook/http_server.hpp:75-105 | Accepts if and only if fewer than 600 of the caller's accepts lie in the last minute; the queue is that part of the accept history. |
| DashboardLimit.MinuteBound | include/dashboard/dashboard_api.hpp:96-108 | No half-open minute holds more than twice the limit of accepts. |
| DashboardLimit.MinuteApart | include/dashboard/dashboard_api.hpp:96-108 | Accepts twice the limit apart in order are a minute apart in time. |
| DashboardLimit.TwiceTheLimitIsAttained | include/dashboard/dashboard_api.hpp:87-108 | For every limit, a client first calling within a minute of the clock's origin can have twice the limit accepted within one second. |
| DashboardLimit.LateMinuteBound | include/dashboard/dashboard_api.hpp:96-108 | For a client whose calls all come 60 s or more after the clock's origin no half-open minute holds more than twice the limit less one. |
| DashboardLimit.LateBoundIsAttained | include/dashboard/dashboard_api.hpp:87-108 | And that many are accepted by some such client, within one second. |
| DashboardLimit.LateLimitHoldsIff | include/dashboard/dashboard_api.hpp:96-108 | The configured limit itself bounds every half-open minute of every such client if and only if it is 1. |
| DashboardLimit.VisitKeeps | include/dashboard/dashboard_api.hpp:96-108 | Windows start a minute apart and each holds at most the limit. |
| DashboardLimit.DashboardRateLimiter.Admit | include/dashboard/dashboard_api.hpp:96-108 | Answers for each client as its own call history determines. |
| StatePersistence.EveryRunLoadsTheLastCommit | include/core/state_persistence.hpp:104-231 | From an empty directory, after any saves, faults and crashes, the main file is absent or whole and a load returns exactly the last committed file content. |
| StatePersistence.LoadIsOldOrNewIff | include/core/state_persistence.hpp:186-231 | From any directory, at every point of a save, a load returns the old or the new state if and only if the save does not start with an unreadable main file and a good backup. |
| StatePersistence.OldOrNewThroughout | include/core/state_persistence.hpp:188-231 | What the three files hold at every point of such a save. |
| StatePersistence.CorruptMainReplacesBackup | include/core/state_persistence.hpp:219-227 | The run in which the backup copy destroys the only good state. |
| StatePersistence.BackupIsOneCommitBehind | include/core/state_persistence.hpp:104-122 | After a save whose backup copy succeeded, losing only the main file makes a load return the state committed before it. |
| StatePersistence.StatePersistence.SaveState | include/core/state_persistence.hpp:43-93 | The file holds the state but for opening times and older trades; success sets file and save time, failure changes neither. |
| StatePersistence.StatePersistence.AtomicWrite | include/core/state_persistence.hpp:188-231 | Its file operations are a run of the step protocol, with exactly three faults that make it fail. |
| StatePersistence.StatePersistence.LoadState | include/core/state_persistence.hpp:104-186 | Main file, else backup, else nothing, restored to a state. |
| StatePersistence.AtMostOncePerInterval | include/execution/execution_engine.hpp:706-709 | However often it is polled and whatever fails, n saves take at least n intervals. |
| StatePersistence.StatePersistence.SaveIfDue | include/execution/execution_engine.hpp:706-709 | One poll of the periodic task writes the state and moves the last save if an interval has passed and nothing fails, and otherwise neither. |
| StatePersistence.NeverOlderThan | include/core/state_persistence.hpp:126-129 | After a poll that saves when due, the last save is less than an interval back, and less than interval plus gap until the next poll. |
| StatePersistence.RestoredSnapshot | include/core/state_persistence.hpp:54-86 | What comes back is the state with its last 2000 trades and every opening time at the clock's origin. |
| StatePersistence.RestoredUnchangedIff | include/core/state_persistence.hpp:54-86 | A state survives save and load unchanged if and only if it has at most 2000 trades and no opening time. |
| Base64.RoundTrip | include/dashboard/dashboard_api.hpp:112-129 | Decoding the padded encoding of any bytes, of section 4 of RFC 4648, returns them, however long. |
| Base64.EncodeInjective | include/dashboard/dashboard_api.hpp:112-129 | So no two byte strings share an encoding. |
| Base64.TestVectors | include/dashboard/dashboard_api.hpp:112-129 | The encoding that is decoded gives the vectors for "f", "fo" and "foo" in section 10 of RFC 4648. |
| Base64.LowBits | include/dashboard/dashboard_api.hpp:121-122 | The wrap of the 32-bit accumulator never reaches its low twelve bits. |
| Base64.Fed | include/dashboard/dashboard_api.hpp:121-127 | What each character emits, from it and the one before alone. |
| Base64.BuildTable | include/dashboard/dashboard_api.hpp:113-117 | The table maps each of the 64 characters to its value and all others to -1. |
| Base64.Base64Decode | include/dashboard/dashboard_api.hpp:112-129 | The loop with the wrapping accumulator computes the decoder, stopping at the first other character. |
| SignalText.CollapseLeavesNoRuns | include/webhook/signal_types.hpp:105-114 | After collapsing no two quotes are adjacent and nothing but quotes was lost. |
| SignalText.CollapseIsIdentityIff | include/webhook/signal_types.hpp:105-114 | Collapsing changes a text if and only if it has adjacent quotes. |
| SignalText.CollapseIdempotent | include/webhook/signal_types.hpp:105-114 | Collapsing twice is collapsing once. |
| SignalText.CollapseQuotes | include/webhook/signal_types.hpp:105-114 | The nested loop keeps exactly the characters that are not a quote after a quote. |
| SignalText.RepairOnlyInsertsQuotes | include/webhook/signal_types.hpp:129-181 | The repaired text with some quotes, each right before a comma, taken out is the text given. |
| SignalText.GrowthBound | include/webhook/signal_types.hpp:132-181 | The repair shortens nothing and inserts at most one quote per colon ahead. |
| SignalText.BrokenValueIsClosed | include/webhook/signal_types.hpp:148-176 | A value that runs into the next key gets its quote right before that comma. |
| SignalText.BrokenValueIsRepaired | include/webhook/signal_types.hpp:132-176 | So the repaired text has a quote right there, everything before it as it was, and is the repair of the rest after it. |
| SignalText.KeyFollowsIff | include/webhook/signal_types.hpp:157-170 | A comma stands before the next key if and only if a quoted name and a colon follow it, with nothing but blanks between. |
| SignalText.ClosedValueIsLeftAlone | include/webhook/signal_types.hpp:148-157 | A value closed by its own quote is left alone, commas in it included. |
| SignalText.ClosedValueIsKept | include/webhook/signal_types.hpp:148-157 | So the repair goes on behind its quote with the text as it was. |
| SignalText.BareValueIsKept | include/webhook/signal_types.hpp:137-146 | A value that does not start with a quote is passed over as it is. |
| SignalText.EscapesAreSkipped | include/webhook/signal_types.hpp:148-151 | A backslash and whatever follows it are passed over. |
| SignalText.Scan | include/webhook/signal_types.hpp:146-179 | A scan stops at a quote, at a comma before a quoted name and colon, or at the end. |
| SignalText.RepairQuotes | include/webhook/signal_types.hpp:129-181 | The loop ends although its text grows, computes the repair, and reports a change exactly when there was one. |

## Left out

- Network and operating system: REST and WebSocket clients, TLS, sessions, authentication, HTML, scripts. An order is accepted or refused by an argument.
- Floating-point rounding; arithmetic is over the reals, with the constants of the code. Infinities and NaN with it: leverage is at least 1 and backtest prices are positive.
- JSON parsing and printing; a file the loader refuses is `Garbage`, a failing parse is what triggers the text repair.
- Integer widths of counters and ids, except the decoder's 32-bit accumulator, where the wrap matters.
- Ambiguity of concatenated string keys when a symbol contains the separator; keys are datatypes.
- Reconciliation.PositionManager.ForwardPass: visits a snapshot of the keys. Reaching inserted positions would change nothing (NewKeysNeedNoVisit); a rehash that invalidates the iterator is not modelled.
- Parsing of the positions response; it is absent or a list of rows.
- Reconciliation.PositionManager.SyncPositions: says when the state file is written, not its content, which is StatePersistence's part.
- Admission.SymbolExclusivity: sides are long and short, and the sync's imports are not among the steps, because an import may legitimately double a symbol; SyncExclusivity says exactly when, and starts runs from a synced book.
- Overshoot.BoundedOvershoot: starts within the limits, without sync imports for the same reason, and keeps the balance; with balances changing see CapOvershootBounded.
- Overshoot.CapOvershootBounded: under changing balances the limit is the largest in force, because a falling balance lowers a percentage cap without any step of the check; the correlation factor is not negative.
- RiskCalendar.SumsMean: successive calls, and successive Mondays with calls, are not exactly years apart, because the day of the year is all the code compares.
- RiskCalendar.WeeklyIsThisWeekIff: dates from the first Monday of 1970 on.
- PortfolioRisk.CapsForever: balance, mode and configuration stay fixed, because a falling balance breaks a percentage cap without any step of the check.
- Circuit-breaker activation and the loss windows: the engine shown never feeds them. The check's daily reset and its release of an expired breaker are modelled.
- The webhook limiter's cleanup runs at every 100th accepted request, as its code does; its comment speaks of every 100 checks.
- Origins.EveryPositionHasItsEntry: the first take-profit price, tier and strategy a signal brings along are not carried; nothing modelled reads them.
- Tier, session, cooldown, sizing and scoring filters before the portfolio check: the step `Skip` stands for any of them giving up.
- PaperLedger.EveryRunBalances: each close is one step, because the money does not depend on when the quantity was read; ConcurrentCloses proves the quantities with reading and booking apart. Balance overwrites from the exchange are not steps: they legitimately change the balance without a trade.
- PaperLedger.PaperDesk.HandleTp: finding and booking are one step; see ConcurrentCloses.
- PaperLedger.PaperDesk.HandleSl: finding and booking are one step; see ConcurrentCloses.
- PaperLedger.PaperDesk.RecordTrade: does not hand the trade to the learner, which is modelled on its own.
- ShadowLedger.ShadowTracker.ClosePosition: does not hand the trade to the learner, keep the rounded live win rate or count towards the periodic save.
- TokenBucket.RateLimiter.Acquire: nobody else takes tokens meanwhile; n within the bucket is what makes it return (AcquireReturnsIff). Negative n is not modelled.
- SymbolLocks.SymbolLockManager.TryLock: a timed wait is the attempt at the moment it ends; waiting and waking are steps of `Admission`.
- Backtest results' percentage figure and the summary metrics (win rate, Sharpe ratio, profit factor): single formulas over the results.
- SymbolLearner.SymbolLearnData.Record: does not include the optimal TP/SL, Kelly fraction, cooldown and blacklist, because they are clamps over these figures.
- StatePersistence.EveryRunLoadsTheLastCommit: a crash stops the process between or inside steps; a power loss that also drops unflushed copies is not modelled.
- StatePersistence.StatePersistence.SaveState: trades have their eleven saved fields only; the derived fee and ratio fields, which are not saved, and the save's date are missing.
- Global agreement of cached grades after eviction or reload, which the code does not have.
- A second pass of the quote repair being a no-op, which is not claimed.
- Scoring formulas, readiness thresholds, fee tables, position sizing, analytics and alerts: clamps and decision trees.
