/**
 The spot shadow tracker: long-only virtual positions closed in parts, the quantities those
 parts add up to, and the cached grade of each symbol, timeframe and exchange.
 */
module SpotLedger {
  import opened FiniteSums

  const MAX_TRADES := 5000
  const DUST := 1.0

  datatype TpLevel = TP1 | TP2 | TP3

  datatype SignalType = Entry | ReEntry | TP | SL | Unknown

  datatype Signal = Signal(
    kind: SignalType, symbol: string, timeframe: string, exchange: string, marketType: string,
    action: string, direction: string, level: TpLevel, price: real, sl: real, tp1: real, strategy: string)

  /** `SYMBOL:TF:EXCHANGE`. */
  datatype Key = Key(symbol: string, timeframe: string, exchange: string)

  /** `serial` is the model's name for the opening the position came from. */
  datatype VirtualPosition = VirtualPosition(
    key: Key, strategy: string, entryPrice: real, slPrice: real, tp1Price: real,
    remainingPct: real, serial: nat)

  datatype Trade = Trade(
    key: Key, serial: nat, takeProfit: bool, strategy: string,
    entryPrice: real, exitPrice: real, quantity: real, pnl: real, fee: real)

  datatype Grade = Unrated | APlus | A | B | C | D | F

  // ---- Pure parts ----

  function Notional(exchange: string): real {
    if exchange == "upbit" then 50000.0 else 100.0
  }

  function FeeRate(exchange: string): real {
    if exchange == "upbit" then 0.0005 else 0.001
  }

  function TpClosePct(level: TpLevel): real {
    match level
    case TP1 => 33.0
    case TP2 => 50.0
    case TP3 => 100.0
  }

  function EndsWith(s: string, suffix: string): bool {
    |s| > |suffix| && s[|s| - |suffix|..] == suffix
  }

  function QuoteCurrency(symbol: string): string {
    if EndsWith(symbol, "KRW") then "KRW"
    else if EndsWith(symbol, "USDT") then "USDT"
    else if EndsWith(symbol, "BTC") then "BTC"
    else "UNKNOWN"
  }

  function KeyOf(sig: Signal): Key {
    Key(sig.symbol, if sig.timeframe == "" then "0" else sig.timeframe, sig.exchange)
  }

  function TotalQty(vp: VirtualPosition): real {
    if vp.entryPrice > 0.0 then Notional(vp.key.exchange) / vp.entryPrice else 0.0
  }

  /** The quantity still open. */
  function OpenQty(vp: VirtualPosition): real {
    TotalQty(vp) * (vp.remainingPct / 100.0)
  }

  /** The share of the whole that closing `pct` of what is left takes. */
  function PartQty(vp: VirtualPosition, pct: real): real {
    TotalQty(vp) * ((pct / 100.0) * (vp.remainingPct / 100.0))
  }

  function TradeOf(vp: VirtualPosition, quantity: real, exitPrice: real, takeProfit: bool): Trade {
    var fee := (vp.entryPrice * quantity + exitPrice * quantity) * FeeRate(vp.key.exchange);
    Trade(vp.key, vp.serial, takeProfit, vp.strategy, vp.entryPrice, exitPrice, quantity,
          (exitPrice - vp.entryPrice) * quantity - fee, fee)
  }

  // ---- The remaining percentage ----

  /** Every value `remaining_pct` can take. */
  predicate IsLevel(pct: real) {
    pct == 100.0 || pct == 67.0 || pct == 50.0 || pct == 44.89 || pct == 33.5 || pct == 30.0763 || pct == 22.445
  }

  function Remaining(pct: real, closePct: real): real {
    pct * (1.0 - closePct / 100.0)
  }

  /** What a matching TP leaves of a position: nothing, or the new percentage. */
  function AfterTp(pct: real, level: TpLevel): Option<real> {
    var closePct := if TpClosePct(level) < pct then TpClosePct(level) else pct;
    if closePct >= pct then None
    else
      var left := Remaining(pct, closePct);
      if left < DUST then None else Some(left)
  }

  /** How many more TPs a position can survive, counting the one that closes it. */
  function Rank(pct: real): nat {
    if pct == 100.0 then 4
    else if pct == 67.0 || pct == 50.0 then 3
    else if pct == 44.89 || pct == 33.5 then 2
    else 1
  }

  /** Levels are closed under TPs, every TP uses up rank, and the dust branch is never reached. */
  lemma LevelsAreClosed(pct: real, level: TpLevel)
    requires IsLevel(pct)
    ensures AfterTp(pct, level).Some? ==>
              IsLevel(AfterTp(pct, level).value) && Rank(AfterTp(pct, level).value) < Rank(pct)
    ensures TpClosePct(level) < pct ==> Remaining(pct, TpClosePct(level)) >= 22.445
    ensures AfterTp(pct, level).None? <==> TpClosePct(level) >= pct
  {
    if level.TP1? {
      assert Remaining(100.0, 33.0) == 67.0 && Remaining(67.0, 33.0) == 44.89 && Remaining(50.0, 33.0) == 33.5;
      assert Remaining(44.89, 33.0) == 30.0763 && Remaining(33.5, 33.0) == 22.445;
    } else if level.TP2? {
      assert Remaining(100.0, 50.0) == 50.0 && Remaining(67.0, 50.0) == 33.5;
    }
  }

  function AfterTps(pct: real, levels: seq<TpLevel>): Option<real> {
    if levels == [] then Some(pct)
    else
      match AfterTps(pct, levels[..|levels| - 1])
      case None => None
      case Some(p) => AfterTp(p, levels[|levels| - 1])
  }

  /** Whatever their levels, n TPs leave a level of rank at most 4 - n, so four leave nothing. */
  lemma {:induction false} FourTakeProfitsClose(levels: seq<TpLevel>)
    ensures AfterTps(100.0, levels).Some? ==>
              IsLevel(AfterTps(100.0, levels).value) && Rank(AfterTps(100.0, levels).value) + |levels| <= 4
    ensures |levels| >= 4 ==> AfterTps(100.0, levels).None?
  {
    if levels != [] {
      var n := |levels| - 1;
      FourTakeProfitsClose(levels[..n]);
      if AfterTps(100.0, levels[..n]).Some? {
        LevelsAreClosed(AfterTps(100.0, levels[..n]).value, levels[n]);
      }
    }
  }

  // ---- Grades ----

  function Closed(trades: seq<Trade>, key: Key): nat {
    if trades == [] then 0
    else Closed(trades[..|trades| - 1], key) + if trades[|trades| - 1].key == key then 1 else 0
  }

  function Won(trades: seq<Trade>, key: Key): nat {
    if trades == [] then 0
    else
      var t := trades[|trades| - 1];
      Won(trades[..|trades| - 1], key) + if t.key == key && t.pnl > 0.0 then 1 else 0
  }

  function PnlOf(trades: seq<Trade>, key: Key): real {
    if trades == [] then 0.0
    else
      var t := trades[|trades| - 1];
      PnlOf(trades[..|trades| - 1], key) + if t.key == key then t.pnl else 0.0
  }

  /** The win rate in hundredths of a percent, rounded half up. */
  function WinRate(wins: nat, total: nat): nat {
    if total == 0 then 0 else (2 * 10000 * wins + total) / (2 * total)
  }

  function ComputeGrade(total: nat, totalPnl: real, winRate: nat): Grade {
    if total < 5 then Unrated
    else if winRate >= 6500 && totalPnl > 0.0 then APlus
    else if winRate >= 5500 && totalPnl > 0.0 then A
    else if winRate >= 5000 && totalPnl > 0.0 then B
    else if winRate >= 4500 then C
    else if winRate >= 3500 then D
    else F
  }

  function GradeOf(trades: seq<Trade>, key: Key): Grade {
    ComputeGrade(Closed(trades, key), PnlOf(trades, key), WinRate(Won(trades, key), Closed(trades, key)))
  }

  function GetGrade(grades: map<Key, Grade>, key: Key): Grade {
    if key in grades then grades[key] else Unrated
  }

  /** A trade of another key leaves a grade as it was. */
  lemma GradeIgnoresOthers(trades: seq<Trade>, tr: Trade, key: Key)
    requires tr.key != key
    ensures GradeOf(trades + [tr], key) == GradeOf(trades, key)
  {
    assert (trades + [tr])[..|trades|] == trades;
  }

  /** The rounded rate is the nearest hundredth of a percent. */
  lemma WinRateIsNearest(wins: nat, total: nat)
    requires wins <= total && total > 0
    ensures -(total as int) <= 2 * (WinRate(wins, total) * total - 10000 * wins) <= total
  {
    var n, d := 2 * 10000 * wins + total, 2 * total;
    assert n == d * (n / d) + n % d;
  }

  function GradeRank(g: Grade): nat {
    match g
    case Unrated => 0
    case F => 1
    case D => 2
    case C => 3
    case B => 4
    case A => 5
    case APlus => 6
  }

  /** A better win rate or a larger total never costs a grade; a rating needs five closes. */
  lemma GradeMonotone(total: nat, pnl: real, better: real, rate: nat, higher: nat)
    requires pnl <= better && rate <= higher
    ensures GradeRank(ComputeGrade(total, pnl, rate)) <= GradeRank(ComputeGrade(total, better, higher))
    ensures ComputeGrade(total, pnl, rate).Unrated? <==> total < 5
  {
  }

  /** A close wins exactly when the move beats the fee paid on both prices. */
  lemma WinExactly(vp: VirtualPosition, quantity: real, exitPrice: real, takeProfit: bool)
    requires quantity > 0.0
    ensures TradeOf(vp, quantity, exitPrice, takeProfit).pnl > 0.0 <==>
            exitPrice * (1.0 - FeeRate(vp.key.exchange)) > vp.entryPrice * (1.0 + FeeRate(vp.key.exchange))
  {
    var f := FeeRate(vp.key.exchange);
    hide FeeRate;
    var edge := (exitPrice - vp.entryPrice) - (vp.entryPrice + exitPrice) * f;
    assert TradeOf(vp, quantity, exitPrice, takeProfit).pnl == quantity * edge;
    SignOfProduct(quantity, edge);
  }

  // ---- The steps ----

  datatype Ledger = Ledger(
    positions: map<Key, VirtualPosition>, entries: nat, closes: nat, wins: nat, losses: nat,
    totalPnl: real, trades: seq<Trade>, grades: map<Key, Grade>,
    openings: seq<VirtualPosition>, history: seq<Trade>)

  predicate AcceptsEntry(sig: Signal) {
    && sig.action == "buy"
    && (sig.exchange == "upbit" ==> QuoteCurrency(sig.symbol) == "KRW")
    && (sig.exchange == "bitget" ==> QuoteCurrency(sig.symbol) == "USDT")
  }

  function TrackEntry(s: Ledger, sig: Signal): Ledger {
    if !AcceptsEntry(sig) || KeyOf(sig) in s.positions then s
    else
      var vp := VirtualPosition(KeyOf(sig), sig.strategy, sig.price, sig.sl, sig.tp1, 100.0, |s.openings|);
      s.(positions := s.positions[KeyOf(sig) := vp], entries := s.entries + 1, openings := s.openings + [vp])
  }

  function Book(s: Ledger, tr: Trade): Ledger {
    var trades := LastN(s.trades + [tr], MAX_TRADES);
    s.(closes := s.closes + 1,
    wins := if tr.pnl > 0.0 then s.wins + 1 else s.wins,
    losses := if tr.pnl > 0.0 then s.losses else s.losses + 1,
    totalPnl := s.totalPnl + tr.pnl,
    trades := trades,
    history := s.history + [tr],
    grades := s.grades[tr.key := GradeOf(trades, tr.key)])
  }

  function PartialClose(s: Ledger, k: Key, exitPrice: real, closePct: real): Ledger
    requires k in s.positions
  {
    var vp := s.positions[k];
    var left := Remaining(vp.remainingPct, closePct);
    Book(s, TradeOf(vp, PartQty(vp, closePct), exitPrice, true)).(
    positions := if left < DUST then s.positions - {k} else s.positions[k := vp.(remainingPct := left)])
  }

  function CloseInFull(s: Ledger, k: Key, exitPrice: real, takeProfit: bool): Ledger
    requires k in s.positions
  {
    var vp := s.positions[k];
    Book(s, TradeOf(vp, OpenQty(vp), exitPrice, takeProfit)).(positions := s.positions - {k})
  }

  function TakeProfit(s: Ledger, k: Key, sig: Signal): Ledger
    requires k in s.positions
  {
    if TpClosePct(sig.level) >= s.positions[k].remainingPct then CloseInFull(s, k, sig.price, true)
    else PartialClose(s, k, sig.price, TpClosePct(sig.level))
  }

  function Exit(s: Ledger, k: Key, sig: Signal): Ledger
    requires k in s.positions
  {
    if sig.kind.TP? then TakeProfit(s, k, sig) else CloseInFull(s, k, sig.price, false)
  }

  ghost predicate Matches(s: Ledger, k: Key, symbol: string) {
    k in s.positions && s.positions[k].key.symbol == symbol
  }

  ghost predicate TrackExit(s: Ledger, sig: Signal, t: Ledger) {
    if sig.direction != "bull" then t == s
    else if KeyOf(sig) in s.positions then t == Exit(s, KeyOf(sig), sig)
    else if exists k :: Matches(s, k, sig.symbol) then exists k :: Matches(s, k, sig.symbol) && t == Exit(s, k, sig)
    else t == s
  }

  ghost predicate Next(s: Ledger, sig: Signal, t: Ledger) {
    if sig.marketType != "spot" || sig.symbol == "" then t == s
    else
      match sig.kind
      case Entry => t == TrackEntry(s, sig)
      case ReEntry => t == TrackEntry(s, sig)
      case TP => TrackExit(s, sig, t)
      case SL => TrackExit(s, sig, t)
      case Unknown => t == s
  }

  // ---- The run invariant ----

  /** The quantity recorded against one opening, and the number of records. */
  function QtyRecorded(history: seq<Trade>, serial: nat): real {
    if history == [] then 0.0
    else
      var t := history[|history| - 1];
      QtyRecorded(history[..|history| - 1], serial) + if t.serial == serial then t.quantity else 0.0
  }

  function Records(history: seq<Trade>, serial: nat): nat {
    if history == [] then 0
    else Records(history[..|history| - 1], serial) + if history[|history| - 1].serial == serial then 1 else 0
  }

  function Pnls(history: seq<Trade>): seq<real> {
    seq(|history|, i requires 0 <= i < |history| => history[i].pnl)
  }

  function Wins(history: seq<Trade>): nat {
    if history == [] then 0
    else Wins(history[..|history| - 1]) + if history[|history| - 1].pnl > 0.0 then 1 else 0
  }

  ghost predicate Held(s: Ledger, serial: nat) {
    exists k :: k in s.positions && s.positions[k].serial == serial
  }

  /** Positions sit under their keys, at a level, each from its own opening. */
  ghost predicate Placed(s: Ledger) {
    && (forall k :: k in s.positions ==>
                      var vp := s.positions[k];
                      vp.key == k && IsLevel(vp.remainingPct) && vp.serial < |s.openings| &&
                      s.openings[vp.serial] == vp.(remainingPct := 100.0))
    && (forall j, k :: j in s.positions && k in s.positions && s.positions[j].serial == s.positions[k].serial ==>
                         j == k)
  }

  /** What an opening has recorded plus what is still open is its total, with closes to spare for the rest. */
  ghost predicate OpenConserved(s: Ledger) {
    && (forall k :: k in s.positions ==>
                      var vp := s.positions[k];
                      QtyRecorded(s.history, vp.serial) + OpenQty(vp) == TotalQty(vp)
                      && Records(s.history, vp.serial) + Rank(vp.remainingPct) <= 4)
    && (forall i :: 0 <= i < |s.history| ==> s.history[i].serial < |s.openings|)
  }

  /** An opening that is gone has recorded its whole quantity in at most four closes. */
  ghost predicate ClosedConserved(s: Ledger) {
    forall i :: 0 <= i < |s.openings| && !Held(s, i) ==>
                  QtyRecorded(s.history, i) == TotalQty(s.openings[i]) && 1 <= Records(s.history, i) <= 4
  }

  ghost predicate FiguresRefine(s: Ledger) {
    && s.entries == |s.openings| && s.closes == |s.history|
    && s.wins == Wins(s.history) && s.wins + s.losses == s.closes
    && s.totalPnl == Sum(Pnls(s.history)) && s.trades == LastN(s.history, 5000)
  }

  /**
   The cache is the definition for every key until the cap first drops a record, and always for the
   key closed last.
   */
  ghost predicate GradesAgree(s: Ledger) {
    && (|s.history| <= MAX_TRADES ==> forall key :: GetGrade(s.grades, key) == GradeOf(s.trades, key))
    && (s.history != [] ==>
          var key := s.history[|s.history| - 1].key; GetGrade(s.grades, key) == GradeOf(s.trades, key))
  }

  ghost predicate Inv(s: Ledger) {
    Placed(s) && OpenConserved(s) && ClosedConserved(s) && FiguresRefine(s) && GradesAgree(s)
  }

  lemma RecordsSnoc(history: seq<Trade>, tr: Trade)
    ensures forall i: nat :: QtyRecorded(history + [tr], i) == QtyRecorded(history, i) + if tr.serial ==
                                                                                            i then tr.quantity else 0.0
    ensures forall i: nat :: Records(history + [tr], i) == Records(history, i) + if tr.serial == i then 1 else 0
  {
    assert (history + [tr])[..|history|] == history;
  }

  lemma {:induction false} NoRecords(history: seq<Trade>, serial: nat)
    requires forall i :: 0 <= i < |history| ==> history[i].serial != serial
    ensures QtyRecorded(history, serial) == 0.0 && Records(history, serial) == 0
  {
    if history != [] {
      NoRecords(history[..|history| - 1], serial);
    }
  }

  lemma BookRefines(s: Ledger, tr: Trade)
    requires FiguresRefine(s)
    ensures FiguresRefine(Book(s, tr))
  {
    hide GradeOf;
    assert (s.history + [tr])[..|s.history|] == s.history;
    assert Pnls(s.history + [tr]) == Pnls(s.history) + [tr.pnl];
    SumSnoc(Pnls(s.history), tr.pnl);
    LastNSnoc(s.history, MAX_TRADES, tr);
  }

  lemma BookAgrees(s: Ledger, tr: Trade)
    requires FiguresRefine(s) && GradesAgree(s)
    ensures GradesAgree(Book(s, tr))
  {
    hide GradeOf;
    var t := Book(s, tr);
    if |t.history| <= MAX_TRADES {
      assert t.trades == s.trades + [tr];
      forall key
        ensures GetGrade(t.grades, key) == GradeOf(t.trades, key)
      {
        if key != tr.key {
          GradeIgnoresOthers(s.trades, tr, key);
        }
      }
    }
  }

  /** Only the positions, grades and figures differ: what the placement and conservation clauses read of a booking. */
  lemma BookKeepsRest(s: Ledger, tr: Trade)
    ensures Book(s, tr).positions == s.positions && Book(s, tr).openings == s.openings
    ensures Book(s, tr).history == s.history + [tr] && Book(s, tr).entries == s.entries
  {
  }

  lemma EntryKeeps(s: Ledger, sig: Signal)
    requires Inv(s)
    ensures Inv(TrackEntry(s, sig))
  {
    var t := TrackEntry(s, sig);
    if t != s {
      NoRecords(s.history, |s.openings|) by {
        hide GradesAgree, FiguresRefine, ClosedConserved, Placed;
      }
      WholeIsOpen(t.positions[KeyOf(sig)]);
      hide Placed, OpenConserved, ClosedConserved, FiguresRefine, GradesAgree, AcceptsEntry, KeyOf, OpenQty,
        TotalQty, Rank, Records, QtyRecorded;
      EntryConserves(s, t, sig);
      EntryPlaced(s, t, sig);
      EntryFigures(s, t, sig);
    }
  }

  lemma EntryPlaced(s: Ledger, t: Ledger, sig: Signal)
    requires Placed(s) && KeyOf(sig) !in s.positions && t == TrackEntry(s, sig)
    ensures Placed(t)
  {
    hide AcceptsEntry, KeyOf;
  }

  lemma EntryFigures(s: Ledger, t: Ledger, sig: Signal)
    requires FiguresRefine(s) && GradesAgree(s) && t == TrackEntry(s, sig)
    ensures FiguresRefine(t) && GradesAgree(t)
  {
    hide AcceptsEntry, KeyOf, GradeOf;
  }

  lemma WholeIsOpen(vp: VirtualPosition)
    requires vp.remainingPct == 100.0
    ensures OpenQty(vp) == TotalQty(vp) && Rank(vp.remainingPct) == 4
  {
  }

  lemma EntryConserves(s: Ledger, t: Ledger, sig: Signal)
    requires Placed(s) && OpenConserved(s) && ClosedConserved(s)
    requires KeyOf(sig) !in s.positions && t == TrackEntry(s, sig) && t != s
    requires var vp := t.positions[KeyOf(sig)]; OpenQty(vp) == TotalQty(vp) && Rank(vp.remainingPct) == 4
    requires QtyRecorded(s.history, |s.openings|) == 0.0 && Records(s.history, |s.openings|) == 0
    ensures OpenConserved(t) && ClosedConserved(t)
  {
    hide AcceptsEntry, KeyOf, TotalQty, OpenQty, Rank, QtyRecorded, Records;
    EntryHeld(s, t, KeyOf(sig));
    hide Held, IsLevel;
    assert ClosedConserved(t) by {
      hide OpenConserved, Placed;
    }
    hide ClosedConserved;
  }

  lemma EntryHeld(s: Ledger, t: Ledger, k: Key)
    requires k in t.positions && k !in s.positions && t.positions == s.positions[k := t.positions[k]]
    ensures Held(t, t.positions[k].serial)
    ensures forall i :: Held(s, i) ==> Held(t, i)
  {
    forall i | Held(s, i)
      ensures Held(t, i)
    {
      var j :| j in s.positions && s.positions[j].serial == i;
      assert t.positions[j].serial == i;
    }
  }

  /** Closing in full books exactly what was left. */
  lemma FullCloseConserves(s: Ledger, k: Key, exitPrice: real, takeProfit: bool)
    requires Placed(s) && OpenConserved(s) && ClosedConserved(s) && k in s.positions
    ensures var t := CloseInFull(s, k, exitPrice, takeProfit);
            Placed(t) && OpenConserved(t) && ClosedConserved(t)
  {
    hide Placed, OpenConserved, ClosedConserved, Book, CloseInFull, TradeOf, OpenQty;
    var tr := TradeOf(s.positions[k], OpenQty(s.positions[k]), exitPrice, takeProfit);
    var t := CloseInFull(s, k, exitPrice, takeProfit);
    CloseShape(s, k, exitPrice, takeProfit);
    RemovalPlaced(s, t, k);
    RemovalConserves(s, t, k, tr);
  }

  lemma CloseShape(s: Ledger, k: Key, exitPrice: real, takeProfit: bool)
    requires k in s.positions
    ensures var t := CloseInFull(s, k, exitPrice, takeProfit);
            var tr := TradeOf(s.positions[k], OpenQty(s.positions[k]), exitPrice, takeProfit);
            && t == Book(s, tr).(positions := s.positions - {k})
            && t.history == s.history + [tr] && t.openings == s.openings
            && tr.serial == s.positions[k].serial && tr.quantity == OpenQty(s.positions[k])
  {
    hide GradeOf, OpenQty, TotalQty;
    BookKeepsRest(s, TradeOf(s.positions[k], OpenQty(s.positions[k]), exitPrice, takeProfit));
    hide Book;
  }

  lemma RankPositive(pct: real)
    ensures 1 <= Rank(pct) <= 4
  {
  }

  lemma RemovalPlaced(s: Ledger, t: Ledger, k: Key)
    requires Placed(s) && t.positions == s.positions - {k} && t.openings == s.openings
    ensures Placed(t)
  {
    hide IsLevel;
  }

  lemma SameTotal(s: Ledger, k: Key)
    requires Placed(s) && k in s.positions
    ensures TotalQty(s.openings[s.positions[k].serial]) == TotalQty(s.positions[k])
  {
  }

  lemma HeldAfterRemoval(s: Ledger, t: Ledger, k: Key)
    requires k in s.positions && t.positions == s.positions - {k}
    ensures forall i :: Held(s, i) && i != s.positions[k].serial ==> Held(t, i)
  {
    forall i | Held(s, i) && i != s.positions[k].serial
      ensures Held(t, i)
    {
      var j :| j in s.positions && s.positions[j].serial == i;
      assert j in t.positions;
    }
  }

  lemma RemovalConserves(s: Ledger, t: Ledger, k: Key, tr: Trade)
    requires Placed(s) && OpenConserved(s) && ClosedConserved(s) && k in s.positions
    requires t.positions == s.positions - {k} && t.history == s.history + [tr] && t.openings == s.openings
    requires tr.serial == s.positions[k].serial && tr.quantity == OpenQty(s.positions[k])
    ensures OpenConserved(t) && ClosedConserved(t)
  {
    RecordsSnoc(s.history, tr);
    hide TotalQty, OpenQty, Rank, IsLevel, QtyRecorded, Records;
    assert OpenConserved(t);
    RankPositive(s.positions[k].remainingPct);
    SameTotal(s, k);
    HeldAfterRemoval(s, t, k);
    hide Held;
    assert ClosedConserved(t);
  }

  /** A partial close moves quantity from the open part to the record. */
  lemma PartialCloseConserves(s: Ledger, k: Key, exitPrice: real, level: TpLevel)
    requires Placed(s) && OpenConserved(s) && ClosedConserved(s)
    requires k in s.positions && TpClosePct(level) < s.positions[k].remainingPct
    ensures var t := PartialClose(s, k, exitPrice, TpClosePct(level));
            Placed(t) && OpenConserved(t) && ClosedConserved(t)
  {
    hide Placed, OpenConserved, ClosedConserved, Book, PartialClose, TradeOf, OpenQty, Remaining, Rank, IsLevel,
      TpClosePct;
    var vp := s.positions[k];
    var pct := TpClosePct(level);
    var left := Remaining(vp.remainingPct, pct);
    var t := PartialClose(s, k, exitPrice, pct);
    var tr := PartOf(vp, exitPrice, pct);
    PlacedIsLevel(s, k);
    PartialStep(vp.remainingPct, level);
    PartialShape(s, k, exitPrice, pct);
    SplitQuantity(vp, pct);
    ReplacementPlaced(s, t, k, left);
    ReplacementConserves(s, t, k, tr, left);
  }

  lemma PlacedIsLevel(s: Ledger, k: Key)
    requires Placed(s) && k in s.positions
    ensures IsLevel(s.positions[k].remainingPct)
  {
  }

  lemma PartialStep(pct: real, level: TpLevel)
    requires IsLevel(pct) && TpClosePct(level) < pct
    ensures var left := Remaining(pct, TpClosePct(level));
            IsLevel(left) && Rank(left) < Rank(pct) && left >= DUST
  {
    LevelsAreClosed(pct, level);
    hide IsLevel, Rank, Remaining;
  }

  /** The record of a partial close. */
  function PartOf(vp: VirtualPosition, exitPrice: real, pct: real): Trade {
    TradeOf(vp, PartQty(vp, pct), exitPrice, true)
  }

  lemma PartialShape(s: Ledger, k: Key, exitPrice: real, pct: real)
    requires k in s.positions && Remaining(s.positions[k].remainingPct, pct) >= DUST
    ensures var t := PartialClose(s, k, exitPrice, pct);
            var vp := s.positions[k];
            var tr := PartOf(vp, exitPrice, pct);
            && t == Book(s, tr).(positions := s.positions[k := vp.(remainingPct := Remaining(vp.remainingPct, pct))])
            && t.history == s.history + [tr] && t.openings == s.openings
            && tr.serial == vp.serial && tr.quantity == PartQty(vp, pct)
  {
    hide GradeOf, PartQty, TotalQty, Remaining;
    BookKeepsRest(s, PartOf(s.positions[k], exitPrice, pct));
    hide Book;
  }

  lemma SplitQuantity(vp: VirtualPosition, pct: real)
    ensures OpenQty(vp) == PartQty(vp, pct) + OpenQty(vp.(remainingPct := Remaining(vp.remainingPct, pct)))
  {
    var part, rest := (pct / 100.0) * (vp.remainingPct / 100.0), Remaining(vp.remainingPct, pct) / 100.0;
    assert vp.remainingPct / 100.0 == part + rest;
    assert TotalQty(vp.(remainingPct := Remaining(vp.remainingPct, pct))) == TotalQty(vp);
  }

  lemma ReplacementPlaced(s: Ledger, t: Ledger, k: Key, left: real)
    requires Placed(s) && k in s.positions && IsLevel(left)
    requires t.positions == s.positions[k := s.positions[k].(remainingPct := left)] && t.openings == s.openings
    ensures Placed(t)
  {
    hide IsLevel;
  }

  lemma HeldAfterReplacement(s: Ledger, t: Ledger, k: Key, left: real)
    requires k in s.positions && t.positions == s.positions[k := s.positions[k].(remainingPct := left)]
    ensures forall i :: Held(s, i) ==> Held(t, i)
    ensures Held(s, s.positions[k].serial)
  {
    forall i | Held(s, i)
      ensures Held(t, i)
    {
      var j :| j in s.positions && s.positions[j].serial == i;
      assert t.positions[j].serial == i;
    }
  }

  lemma ReplacementConserves(s: Ledger, t: Ledger, k: Key, tr: Trade, left: real)
    requires Placed(s) && OpenConserved(s) && ClosedConserved(s) && k in s.positions
    requires t.positions == s.positions[k := s.positions[k].(remainingPct := left)] &&
             t.history == s.history + [tr] && t.openings == s.openings
    requires tr.serial == s.positions[k].serial && Rank(left) < Rank(s.positions[k].remainingPct)
    requires OpenQty(s.positions[k]) == tr.quantity + OpenQty(t.positions[k])
    ensures OpenConserved(t) && ClosedConserved(t)
  {
    SameWhole(s.positions[k], left);
    hide TotalQty, OpenQty, Rank, IsLevel, QtyRecorded, Records, Held;
    ReplacedOpen(s, t, k, tr, left);
    ReplacedClosed(s, t, k, tr, left);
  }

  lemma SameWhole(vp: VirtualPosition, left: real)
    ensures TotalQty(vp.(remainingPct := left)) == TotalQty(vp)
  {
  }

  lemma ReplacedOpen(s: Ledger, t: Ledger, k: Key, tr: Trade, left: real)
    requires Placed(s) && OpenConserved(s) && k in s.positions
    requires t.positions == s.positions[k := s.positions[k].(remainingPct := left)] &&
             t.history == s.history + [tr] && t.openings == s.openings
    requires tr.serial == s.positions[k].serial && Rank(left) < Rank(s.positions[k].remainingPct)
    requires OpenQty(s.positions[k]) == tr.quantity + OpenQty(t.positions[k])
    requires TotalQty(t.positions[k]) == TotalQty(s.positions[k])
    ensures OpenConserved(t)
  {
    RecordsSnoc(s.history, tr);
    hide TotalQty, OpenQty, Rank, IsLevel, QtyRecorded, Records;
  }

  lemma ReplacedClosed(s: Ledger, t: Ledger, k: Key, tr: Trade, left: real)
    requires ClosedConserved(s) && k in s.positions
    requires t.positions == s.positions[k := s.positions[k].(remainingPct := left)] &&
             t.history == s.history + [tr] && t.openings == s.openings
    requires tr.serial == s.positions[k].serial
    ensures ClosedConserved(t)
  {
    RecordsSnoc(s.history, tr);
    HeldAfterReplacement(s, t, k, left);
    hide TotalQty, QtyRecorded, Records, Held;
  }

  lemma ExitKeeps(s: Ledger, k: Key, sig: Signal)
    requires Inv(s) && k in s.positions && (sig.kind.TP? || sig.kind.SL?)
    ensures Inv(Exit(s, k, sig))
  {
    var vp := s.positions[k];
    if sig.kind.TP? && TpClosePct(sig.level) < vp.remainingPct {
      hide Placed, OpenConserved, ClosedConserved, FiguresRefine, GradesAgree, Book, PartialClose, PartOf,
        TpClosePct, Remaining;
      PartialCloseConserves(s, k, sig.price, sig.level);
      PlacedIsLevel(s, k);
      PartialStep(vp.remainingPct, sig.level);
      PartialShape(s, k, sig.price, TpClosePct(sig.level));
      FiguresAfter(s, PartOf(vp, sig.price, TpClosePct(sig.level)), Exit(s, k, sig));
    } else {
      hide Placed, OpenConserved, ClosedConserved, FiguresRefine, GradesAgree, Book, CloseInFull, TradeOf, OpenQty,
        TpClosePct;
      FullCloseConserves(s, k, sig.price, sig.kind.TP?);
      CloseShape(s, k, sig.price, sig.kind.TP?);
      FiguresAfter(s, TradeOf(vp, OpenQty(vp), sig.price, sig.kind.TP?), Exit(s, k, sig));
    }
  }

  lemma FiguresAfter(s: Ledger, tr: Trade, t: Ledger)
    requires FiguresRefine(s) && GradesAgree(s) && t == Book(s, tr).(positions := t.positions)
    ensures FiguresRefine(t) && GradesAgree(t)
  {
    BookRefines(s, tr);
    BookAgrees(s, tr);
    hide Book;
    PositionsAside(Book(s, tr), t);
  }

  /** The figures and the grades do not depend on the open positions. */
  lemma PositionsAside(s: Ledger, t: Ledger)
    requires t == s.(positions := t.positions) && FiguresRefine(s) && GradesAgree(s)
    ensures FiguresRefine(t) && GradesAgree(t)
  {
    hide GradeOf;
  }

  lemma NextKeeps(s: Ledger, sig: Signal, t: Ledger)
    requires Inv(s) && Next(s, sig, t)
    ensures Inv(t)
  {
    hide Inv, Exit, TrackEntry;
    if t != s {
      if sig.kind.Entry? || sig.kind.ReEntry? {
        EntryKeeps(s, sig);
      } else if KeyOf(sig) in s.positions {
        ExitKeeps(s, KeyOf(sig), sig);
      } else {
        var k :| Matches(s, k, sig.symbol) && t == Exit(s, k, sig);
        ExitKeeps(s, k, sig);
      }
    }
  }

  const FRESH := Ledger(map[], 0, 0, 0, 0, 0.0, [], map[], [], [])

  ghost predicate IsRun(states: seq<Ledger>, signals: seq<Signal>) {
    && |states| == |signals| + 1
    && forall i :: 0 <= i < |signals| ==> Next(states[i], signals[i], states[i + 1])
  }

  lemma FreshHolds()
    ensures Inv(FRESH)
  {
    FreshGrades();
    hide GradesAgree, TotalQty, OpenQty, IsLevel, Rank;
  }

  lemma FreshGrades()
    ensures GradesAgree(FRESH)
  {
    hide GradeOf;
    forall key
      ensures GradeOf([], key) == Unrated
    {
      NoTradesNoGrade(key);
    }
  }

  lemma NoTradesNoGrade(key: Key)
    ensures GradeOf([], key) == Unrated
  {
    assert Closed([], key) == 0;
    hide WinRate, PnlOf, Won;
  }

  /**
   In every reachable state: levels only, quantities conserved, at most four closes an opening,
   figures and grades exact.
   */
  lemma {:induction false} EveryRunConserves(states: seq<Ledger>, signals: seq<Signal>, i: nat)
    requires IsRun(states, signals) && states[0] == FRESH && i < |states|
    ensures Placed(states[i]) && OpenConserved(states[i]) && ClosedConserved(states[i])
    ensures FiguresRefine(states[i]) && GradesAgree(states[i])
  {
    hide Next, Placed, OpenConserved, ClosedConserved, FiguresRefine, GradesAgree;
    if i == 0 {
      FreshHolds();
    } else {
      EveryRunConserves(states, signals, i - 1);
      assert Next(states[i - 1], signals[i - 1], states[i - 1 + 1]);
      NextKeeps(states[i - 1], signals[i - 1], states[i]);
    }
  }

  // ---- What each signal does, in the signal's own terms ----

  /** Signals of the spot market that name a symbol; all others are ignored. */
  predicate Followed(sig: Signal) {
    sig.marketType == "spot" && sig.symbol != ""
  }

  function TfOf(sig: Signal): string {
    if sig.timeframe == "" then "0" else sig.timeframe
  }

  /** The symbol is a base currency with the quote currency behind it. */
  ghost predicate QuotedIn(symbol: string, quote: string) {
    exists base :: base != "" && symbol == base + quote
  }

  lemma EndsWithIs(s: string, suffix: string)
    ensures EndsWith(s, suffix) <==> QuotedIn(s, suffix)
  {
    if EndsWith(s, suffix) {
      assert s == s[..|s| - |suffix|] + suffix;
    }
    if QuotedIn(s, suffix) {
      var base :| base != "" && s == base + suffix;
      assert s[|s| - |suffix|..] == suffix;
    }
  }

  lemma QuoteIs(symbol: string)
    ensures QuoteCurrency(symbol) == "KRW" <==> QuotedIn(symbol, "KRW")
    ensures QuoteCurrency(symbol) == "USDT" <==> QuotedIn(symbol, "USDT")
  {
    EndsWithIs(symbol, "KRW");
    EndsWithIs(symbol, "USDT");
    assert |"KRW"| == |"BTC"| == 3 && |"USDT"| == 4 && |"UNKNOWN"| == 7 && "KRW"[0] != "BTC"[0];
  }

  /**
   An entry opens a position exactly when it is a buy, in won on Upbit and in USDT on Bitget, whose own key
   is free; then with the figures of the signal, whole. Nothing else about it changes anything.
   */
  lemma EntriesOpen(s: Ledger, sig: Signal, t: Ledger)
    requires Next(s, sig, t) && Followed(sig) && (sig.kind.Entry? || sig.kind.ReEntry?)
    ensures var own := Key(sig.symbol, TfOf(sig), sig.exchange);
            var opens := sig.action == "buy" && own !in s.positions
                         && (sig.exchange == "upbit" ==> QuotedIn(sig.symbol, "KRW"))
                         && (sig.exchange == "bitget" ==> QuotedIn(sig.symbol, "USDT"));
            && (t == s <==> !opens)
            && (opens ==>
                  var vp := VirtualPosition(own, sig.strategy, sig.price, sig.sl, sig.tp1, 100.0, |s.openings|);
                  t == s.(positions := s.positions[own := vp], entries := s.entries + 1, openings := s.openings + [vp]))
  {
    QuoteIs(sig.symbol);
    hide QuoteCurrency, QuotedIn;
  }

  /** Which share of what is left of a position its close takes. */
  function Share(sig: Signal, remainingPct: real): real {
    if sig.kind.TP? && sig.level.TP1? && 33.0 < remainingPct then 0.33
    else if sig.kind.TP? && sig.level.TP2? && 50.0 < remainingPct then 0.5
    else 1.0
  }

  /** The record of closing a share: of 50000 won on Upbit and 100 of notional elsewhere, with the exchange's fee. */
  ghost predicate Accounts(tr: Trade, vp: VirtualPosition, share: real, exitPrice: real, takeProfit: bool) {
    var notional := if vp.key.exchange == "upbit" then 50000.0 else 100.0;
    var rate := if vp.key.exchange == "upbit" then 0.0005 else 0.001;
    && tr.key == vp.key && tr.serial == vp.serial && tr.strategy == vp.strategy && tr.takeProfit == takeProfit
    && tr.entryPrice == vp.entryPrice && tr.exitPrice == exitPrice
    && (if vp.entryPrice > 0.0 then tr.quantity * vp.entryPrice == notional * (share * vp.remainingPct / 100.0)
        else tr.quantity == 0.0)
    && tr.fee == rate * (vp.entryPrice + exitPrice) * tr.quantity
    && tr.pnl == (exitPrice - vp.entryPrice) * tr.quantity - tr.fee
  }

  /** One record more, its profit on the total, and its share off the position, which goes when all of it is closed. */
  ghost predicate Settles(s: Ledger, t: Ledger, k: Key, sig: Signal)
    requires k in s.positions
  {
    var n, vp := |s.history|, s.positions[k];
    var share := Share(sig, vp.remainingPct);
    && |t.history| == n + 1 && t.history[..n] == s.history
    && Accounts(t.history[n], vp, share, sig.price, sig.kind.TP?)
    && t.totalPnl == s.totalPnl + t.history[n].pnl
    && t.entries == s.entries && t.openings == s.openings
    && t.positions == if share == 1.0 then s.positions - {k}
                      else s.positions[k := vp.(remainingPct := (1.0 - share) * vp.remainingPct)]
  }

  lemma TradeAccounts(vp: VirtualPosition, share: real, quantity: real, exitPrice: real, takeProfit: bool)
    requires quantity == TotalQty(vp) * (share * vp.remainingPct / 100.0)
    ensures Accounts(TradeOf(vp, quantity, exitPrice, takeProfit), vp, share, exitPrice, takeProfit)
  {
    var f := share * vp.remainingPct / 100.0;
    QuantityTimesPrice(vp, f);
    hide TotalQty;
  }

  lemma QuantityTimesPrice(vp: VirtualPosition, f: real)
    ensures if vp.entryPrice > 0.0 then TotalQty(vp) * f * vp.entryPrice == Notional(vp.key.exchange) * f
            else TotalQty(vp) * f == 0.0
  {
    if vp.entryPrice > 0.0 {
      var q := TotalQty(vp);
      assert q * vp.entryPrice == Notional(vp.key.exchange);
      hide TotalQty;
      assert q * f * vp.entryPrice == q * vp.entryPrice * f;
    }
  }

  lemma ShareIs(sig: Signal, pct: real)
    requires IsLevel(pct) && sig.kind.TP?
    ensures Share(sig, pct) == if TpClosePct(sig.level) >= pct then 1.0 else TpClosePct(sig.level) / 100.0
    ensures TpClosePct(sig.level) < pct ==>
              Share(sig, pct) < 1.0 && Remaining(pct, TpClosePct(sig.level)) == (1.0 - Share(sig, pct)) * pct >= DUST
  {
    LevelsAreClosed(pct, sig.level);
  }

  lemma ExitSettles(s: Ledger, k: Key, sig: Signal)
    requires Placed(s) && k in s.positions && (sig.kind.TP? || sig.kind.SL?)
    ensures Settles(s, Exit(s, k, sig), k, sig)
  {
    var vp := s.positions[k];
    PlacedIsLevel(s, k);
    var share := Share(sig, vp.remainingPct);
    if sig.kind.TP? {
      ShareIs(sig, vp.remainingPct);
    }
    hide Placed, IsLevel, Share, Settles, TpClosePct, TotalQty, Remaining, GradeOf, LastN, Book;
    if sig.kind.TP? && TpClosePct(sig.level) < vp.remainingPct {
      PartSettles(s, k, sig);
    } else {
      WholeSettles(s, k, sig);
    }
  }

  lemma WholeSettles(s: Ledger, k: Key, sig: Signal)
    requires k in s.positions && Share(sig, s.positions[k].remainingPct) == 1.0
    ensures Settles(s, CloseInFull(s, k, sig.price, sig.kind.TP?), k, sig)
  {
    var vp := s.positions[k];
    hide Share, Accounts, TradeOf, TotalQty, GradeOf, LastN;
    assert OpenQty(vp) == TotalQty(vp) * (1.0 * vp.remainingPct / 100.0);
    TradeAccounts(vp, 1.0, OpenQty(vp), sig.price, sig.kind.TP?);
    CloseShape(s, k, sig.price, sig.kind.TP?);
  }

  lemma PartSettles(s: Ledger, k: Key, sig: Signal)
    requires k in s.positions && sig.kind.TP?
    requires var pct := s.positions[k].remainingPct;
             && Share(sig, pct) == TpClosePct(sig.level) / 100.0 < 1.0
             && Remaining(pct, TpClosePct(sig.level)) == (1.0 - Share(sig, pct)) * pct >= DUST
    ensures Settles(s, PartialClose(s, k, sig.price, TpClosePct(sig.level)), k, sig)
  {
    var vp := s.positions[k];
    var share := Share(sig, vp.remainingPct);
    hide Share, Accounts, TradeOf, TpClosePct, TotalQty, Remaining, GradeOf, LastN;
    PartShare(vp, TpClosePct(sig.level), share);
    TradeAccounts(vp, share, PartQty(vp, TpClosePct(sig.level)), sig.price, true);
    PartialShape(s, k, sig.price, TpClosePct(sig.level));
  }

  lemma PartShare(vp: VirtualPosition, pct: real, share: real)
    requires share == pct / 100.0
    ensures PartQty(vp, pct) == TotalQty(vp) * (share * vp.remainingPct / 100.0)
  {
    hide TotalQty;
    assert pct / 100.0 * (vp.remainingPct / 100.0) == share * vp.remainingPct / 100.0;
  }

  /**
   A bullish TP or SL settles a position of its symbol, its own key if that is held; only when none is held,
   or when it is not bullish, does it leave everything as it is.
   */
  lemma ExitsSettle(s: Ledger, sig: Signal, t: Ledger)
    requires Placed(s) && Next(s, sig, t) && Followed(sig) && (sig.kind.TP? || sig.kind.SL?)
    ensures var own := Key(sig.symbol, TfOf(sig), sig.exchange);
            && (t == s <==> sig.direction != "bull" || forall k :: k in s.positions ==> k.symbol != sig.symbol)
            && (t != s ==> exists k :: k in s.positions && k.symbol == sig.symbol
                                       && (own in s.positions ==> k == own) && Settles(s, t, k, sig))
  {
    hide Exit, Settles, IsLevel;
    assert KeyOf(sig) == Key(sig.symbol, TfOf(sig), sig.exchange);
    assert forall k :: k in s.positions ==> (Matches(s, k, sig.symbol) <==> k.symbol == sig.symbol);
    hide Placed, Matches;
    if sig.direction == "bull" {
      if KeyOf(sig) in s.positions {
        ExitSettles(s, KeyOf(sig), sig);
        SettlingChanges(s, t, KeyOf(sig), sig);
      } else if exists k :: Matches(s, k, sig.symbol) {
        var k :| Matches(s, k, sig.symbol) && t == Exit(s, k, sig);
        MatchIsHeld(s, k, sig.symbol);
        ExitSettles(s, k, sig);
        SettlingChanges(s, t, k, sig);
      }
    }
  }

  lemma MatchIsHeld(s: Ledger, k: Key, symbol: string)
    requires Matches(s, k, symbol)
    ensures k in s.positions
  {
  }

  lemma SettlingChanges(s: Ledger, t: Ledger, k: Key, sig: Signal)
    requires k in s.positions && Settles(s, t, k, sig)
    ensures t != s
  {
    hide Accounts;
  }

  lemma OthersIgnored(s: Ledger, sig: Signal, t: Ledger)
    requires Next(s, sig, t) && (!Followed(sig) || sig.kind.Unknown?)
    ensures t == s
  {
  }

  // ---- What a grade says ----

  /** A grade needs five closes; the upper three also need a profit. Rates are in hundredths of a percent. */
  lemma GradeAtLeast(total: nat, pnl: real, rate: nat)
    ensures var g := GradeRank(ComputeGrade(total, pnl, rate));
            && (g >= 1 <==> total >= 5)
            && (g >= 2 <==> total >= 5 && rate >= 3500)
            && (g >= 3 <==> total >= 5 && rate >= 4500)
            && (g >= 4 <==> total >= 5 && rate >= 5000 && pnl > 0.0)
            && (g >= 5 <==> total >= 5 && rate >= 5500 && pnl > 0.0)
            && (g >= 6 <==> total >= 5 && rate >= 6500 && pnl > 0.0)
  {
  }

  ghost function TradesOf(trades: seq<Trade>, key: Key): set<nat> {
    set i: nat | i < |trades| && trades[i].key == key
  }

  ghost function WinnersOf(trades: seq<Trade>, key: Key): set<nat> {
    set i: nat | i < |trades| && trades[i].key == key && trades[i].pnl > 0.0
  }

  /** What a grade is computed from: the number of the key's trades, of its winners, and the sum of its profits. */
  lemma FiguresOf(trades: seq<Trade>, key: Key)
    ensures Closed(trades, key) == |TradesOf(trades, key)| && Won(trades, key) == |WinnersOf(trades, key)|
    ensures PnlOf(trades, key)
         == Sum(seq(|trades|, i requires 0 <= i < |trades| => if trades[i].key == key then trades[i].pnl else 0.0))
  {
    CountsOf(trades, key);
    PnlIs(trades, key);
    hide *;
  }

  lemma {:induction false} CountsOf(trades: seq<Trade>, key: Key)
    ensures Closed(trades, key) == |TradesOf(trades, key)| && Won(trades, key) == |WinnersOf(trades, key)|
  {
    if trades != [] {
      var n := |trades| - 1;
      CountsOf(trades[..n], key);
      SetsSnoc(trades, key);
      hide TradesOf, WinnersOf;
    }
  }

  lemma SetsSnoc(trades: seq<Trade>, key: Key)
    requires trades != []
    ensures var n: nat := |trades| - 1;
            var mine := trades[n].key == key;
            && TradesOf(trades, key) == TradesOf(trades[..n], key) + (if mine then {n} else {})
            && WinnersOf(trades, key) ==
               WinnersOf(trades[..n], key) + (if mine && trades[n].pnl > 0.0 then {n} else {})
            && n !in TradesOf(trades[..n], key) && n !in WinnersOf(trades[..n], key)
  {
  }

  lemma {:induction false} PnlIs(trades: seq<Trade>, key: Key)
    ensures PnlOf(trades, key)
         == Sum(seq(|trades|, i requires 0 <= i < |trades| => if trades[i].key == key then trades[i].pnl else 0.0))
  {
    if trades != [] {
      var n := |trades| - 1;
      PnlIs(trades[..n], key);
      var all := seq(|trades|, i requires 0 <= i < |trades| => if trades[i].key == key then trades[i].pnl else 0.0);
      assert all[..n] == seq(n, i requires 0 <= i < n => if trades[..n][i].key == key then trades[..n][i].pnl else 0.0);
    }
  }

  // ---- The tracker ----

  class SpotShadowTracker {
    var positions: map<Key, VirtualPosition>
    var trades: seq<Trade>
    var symbolGrades: map<Key, Grade>
    var totalEntries: nat
    var totalCloses: nat
    var wins: nat
    var losses: nat
    var totalPnl: real
    ghost var openings: seq<VirtualPosition>
    ghost var history: seq<Trade>

    ghost function Abs(): Ledger
      reads this
    {
      Ledger(positions, totalEntries, totalCloses, wins, losses, totalPnl, trades, symbolGrades, openings, history)
    }

    constructor ()
      ensures Abs() == FRESH
    {
      positions, trades, symbolGrades := map[], [], map[];
      totalEntries, totalCloses, wins, losses, totalPnl := 0, 0, 0, 0, 0.0;
      openings, history := [], [];
    }

    method Track(sig: Signal)
      requires Inv(Abs())
      modifies this
      ensures Next(old(Abs()), sig, Abs()) && Inv(Abs())
    {
      Dispatch(sig);
      NextKeeps(old(Abs()), sig, Abs());
    }

    method Dispatch(sig: Signal)
      requires totalEntries == |openings|
      modifies this
      ensures Next(old(Abs()), sig, Abs())
    {
      if sig.marketType != "spot" || sig.symbol == "" {
        return;
      }
      match sig.kind
      case Entry => EnterVirtually(sig);
      case ReEntry => EnterVirtually(sig);
      case TP => ExitVirtually(sig);
      case SL => ExitVirtually(sig);
      case Unknown =>
    }

    method EnterVirtually(sig: Signal)
      requires totalEntries == |openings|
      modifies this
      ensures Abs() == TrackEntry(old(Abs()), sig)
    {
      if sig.action != "buy" {
        return;
      }
      var quote := QuoteCurrency(sig.symbol);
      if sig.exchange == "upbit" && quote != "KRW" {
        return;
      }
      if sig.exchange == "bitget" && quote != "USDT" {
        return;
      }
      var key := KeyOf(sig);
      if key in positions {
        return;
      }
      var vp := VirtualPosition(key, sig.strategy, sig.price, sig.sl, sig.tp1, 100.0, totalEntries);
      positions := positions[key := vp];
      totalEntries := totalEntries + 1;
      openings := openings + [vp];
    }

    method ExitVirtually(sig: Signal)
      requires sig.kind.TP? || sig.kind.SL?
      modifies this
      ensures TrackExit(old(Abs()), sig, Abs())
    {
      if sig.direction != "bull" {
        return;
      }
      var key := KeyOf(sig);
      if key !in positions {
        var found := FindBySymbol(sig.symbol);
        if found.None? {
          return;
        }
        key := found.value;
      }
      if sig.kind.SL? {
        ClosePosition(key, sig.price, false);
        return;
      }
      var closePct := TpClosePct(sig.level);
      var actual := if closePct < positions[key].remainingPct then closePct else positions[key].remainingPct;
      if actual >= positions[key].remainingPct {
        ClosePosition(key, sig.price, true);
      } else {
        PartiallyClose(key, sig.price, actual);
      }
    }

    method FindBySymbol(symbol: string) returns (found: Option<Key>)
      ensures found.Some? ==> Matches(Abs(), found.value, symbol)
      ensures found.None? ==> forall k :: !Matches(Abs(), k, symbol)
    {
      var todo := positions.Keys;
      while todo != {}
        invariant todo <= positions.Keys
        invariant forall k :: k in positions && k !in todo ==> positions[k].key.symbol != symbol
        decreases |todo|
      {
        var k :| k in todo;
        if positions[k].key.symbol == symbol {
          return Some(k);
        }
        todo := todo - {k};
      }
      return None;
    }

    method PartiallyClose(key: Key, exitPrice: real, closePct: real)
      requires key in positions
      modifies this
      ensures Abs() == PartialClose(old(Abs()), key, exitPrice, closePct)
    {
      hide TradeOf, Book, GradeOf, PartQty, Remaining;
      var vp := positions[key];
      RecordTrade(TradeOf(vp, PartQty(vp, closePct), exitPrice, true));
      var left := Remaining(vp.remainingPct, closePct);
      positions := if left < DUST then positions - {key} else positions[key := vp.(remainingPct := left)];
    }

    method ClosePosition(key: Key, exitPrice: real, takeProfit: bool)
      requires key in positions
      modifies this
      ensures Abs() == CloseInFull(old(Abs()), key, exitPrice, takeProfit)
    {
      hide TradeOf, Book, GradeOf, OpenQty;
      var vp := positions[key];
      RecordTrade(TradeOf(vp, OpenQty(vp), exitPrice, takeProfit));
      positions := positions - {key};
    }

    method RecordTrade(tr: Trade)
      modifies `wins, `losses, `totalPnl, `totalCloses, `trades, `history, `symbolGrades
      ensures Abs() == Book(old(Abs()), tr)
    {
      hide GradeOf, TradeOf;
      Tally(tr);
      trades := trades + [tr];
      history := history + [tr];
      if |trades| > MAX_TRADES {
        trades := trades[|trades| - MAX_TRADES..];
      }
      assert trades == LastN(old(trades) + [tr], MAX_TRADES);
      RefreshGrade(tr.key);
    }

    method Tally(tr: Trade)
      modifies `wins, `losses, `totalPnl, `totalCloses
      ensures tr.pnl > 0.0 ==> wins == old(wins) + 1 && losses == old(losses)
      ensures tr.pnl <= 0.0 ==> wins == old(wins) && losses == old(losses) + 1
      ensures totalPnl == old(totalPnl) + tr.pnl && totalCloses == old(totalCloses) + 1
    {
      if tr.pnl > 0.0 {
        wins := wins + 1;
      } else {
        losses := losses + 1;
      }
      totalPnl := totalPnl + tr.pnl;
      totalCloses := totalCloses + 1;
    }

    /** One pass over the kept trades. */
    method RefreshGrade(key: Key)
      modifies `symbolGrades
      ensures symbolGrades == old(symbolGrades)[key := GradeOf(trades, key)]
    {
      var total, won, pnl := 0, 0, 0.0;
      for i := 0 to |trades|
        invariant total == Closed(trades[..i], key) && won == Won(trades[..i], key) && pnl == PnlOf(trades[..i], key)
      {
        assert trades[..i + 1][..i] == trades[..i];
        if trades[i].key == key {
          total := total + 1;
          if trades[i].pnl > 0.0 {
            won := won + 1;
          }
          pnl := pnl + trades[i].pnl;
        }
      }
      assert trades[..|trades|] == trades;
      symbolGrades := symbolGrades[key := ComputeGrade(total, pnl, WinRate(won, total))];
    }
  }
}
