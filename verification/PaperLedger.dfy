/**
 The futures ledger: positions registered by entries, closed in part or in full by TP, SL and
 external closes, every close booked to the balance, the peak and the capped trade list.
 */
module PaperLedger {
  import opened FiniteSums
  import opened PortfolioRisk

  const TAKER_FEE_PCT := 0.0006
  const MAX_TRADES := 2000

  datatype Reason = TakeProfit(level: string, partial: bool) | StopLoss | WsClose | ManualCloseAll | EmergencyCloseNoSl

  datatype Trade = Trade(
    key: PosKey, symbol: string, timeframe: string, reason: Reason, strategy: string,
    entryPrice: real, exitPrice: real, quantity: real, pnl: real, fee: real)

  // ---- Pure parts ----

  function CalcPnl(side: string, entry: real, exit: real, qty: real): real {
    if entry <= 0.0 || qty <= 0.0 then 0.0
    else (if side == "long" then 1.0 else -1.0) * (exit - entry) * qty
  }

  function CalcFee(price: real, qty: real): real {
    price * qty * TAKER_FEE_PCT * 2.0
  }

  function CloseRatio(level: string): real {
    if level == "TP1" then 0.33 else if level == "TP2" then 0.50 else 1.0
  }

  /** A close quantity of zero stands for the whole position. */
  function CloseQty(p: Position, asked: real): real {
    if asked <= 0.0 then p.quantity else asked
  }

  function TradeOf(key: PosKey, p: Position, exit: real, reason: Reason, asked: real): Trade {
    var qty := CloseQty(p, asked);
    var fee := CalcFee(exit, qty);
    Trade(key, p.symbol, p.timeframe, reason, p.strategy, p.entryPrice, exit, qty,
          CalcPnl(p.side, p.entryPrice, exit, qty) - fee, fee)
  }

  /** An external close prefers the profit the exchange reports. */
  function WsTradeOf(key: PosKey, p: Position, exit: real, realizedPnl: real): Trade {
    var tr := TradeOf(key, p, exit, WsClose, 0.0);
    if Abs(realizedPnl) > 0.0001 then tr.(pnl := realizedPnl - tr.fee) else tr
  }

  /** A partial and the rest earn together what the whole would have earned. */
  lemma PnlSplits(side: string, entry: real, exit: real, part: real, rest: real)
    requires part > 0.0 && rest > 0.0
    ensures CalcPnl(side, entry, exit, part) + CalcPnl(side, entry, exit, rest) ==
            CalcPnl(side, entry, exit, part + rest)
    ensures CalcFee(exit, part) + CalcFee(exit, rest) == CalcFee(exit, part + rest)
  {
    assert (exit - entry) * (part + rest) == (exit - entry) * part + (exit - entry) * rest;
    assert exit * (part + rest) == exit * part + exit * rest;
  }

  /** A close of a positive quantity wins exactly when the move beats the round-trip fee on the exit price. */
  lemma WinExactly(side: string, entry: real, exit: real, qty: real)
    requires entry > 0.0 && qty > 0.0
    ensures CalcPnl(side, entry, exit, qty) - CalcFee(exit, qty) > 0.0 <==>
            if side == "long" then exit * (1.0 - 0.0012) > entry else entry > exit * (1.0 + 0.0012)
  {
    var edge := (if side == "long" then exit - entry else entry - exit) - exit * 0.0012;
    assert CalcPnl(side, entry, exit, qty) - CalcFee(exit, qty) == qty * edge;
    SignOfProduct(qty, edge);
  }

  // ---- The steps ----

  /** `registered` remembers the quantity each position was registered with. */
  datatype Ledger = Ledger(
    book: Book, nextOid: nat, balance: real, peak: real, trades: seq<Trade>,
    registered: map<PosKey, real>, history: seq<Trade>)

  datatype Event =
    | Register(p: Position)
    | Tp(symbol: string, direction: string, level: string, price: real, accepted: bool)
    | Sl(symbol: string, direction: string, price: real, accepted: bool)
    | WsUpdate(symbol: string, side: string, avgPrice: real, realizedPnl: real)
    | ManualClose(symbol: string, side: string, accepted: bool)
    | EmergencyClose(symbol: string, side: string, price: real, accepted: bool)

  function Booked(s: Ledger, tr: Trade): Ledger {
    s.(trades := LastN(s.trades + [tr], MAX_TRADES),
    history := s.history + [tr],
    balance := s.balance + tr.pnl,
    peak := Max(s.peak, s.balance + tr.pnl))
  }

  function Open(s: Ledger, p: Position): Ledger {
    var key := Opened(p.symbol, p.timeframe, s.nextOid);
    s.(book := s.book[key := p], nextOid := s.nextOid + 1, registered := s.registered[key := p.quantity])
  }

  ghost predicate Matches(book: Book, k: PosKey, symbol: string, side: string) {
    k in book && book[k].symbol == symbol && book[k].side == side
  }

  function IsFull(level: string): bool {
    level == "TP3" || CloseRatio(level) >= 0.99
  }

  function CloseTp(s: Ledger, k: PosKey, level: string, price: real): Ledger
    requires k in s.book
  {
    var p := s.book[k];
    var asked := p.quantity * CloseRatio(level);
    var exit := if price > 0.0 then price else p.entryPrice;
    var booked := Booked(s, TradeOf(k, p, exit, TakeProfit(level, !IsFull(level)), asked));
    if IsFull(level) then booked.(book := s.book - {k}) else booked.(book := Reduce(s.book, k, asked))
  }

  /** Books the whole position and removes it. */
  function CloseWhole(s: Ledger, k: PosKey, exit: real, reason: Reason): Ledger
    requires k in s.book
  {
    Booked(s, TradeOf(k, s.book[k], exit, reason, 0.0)).(book := s.book - {k})
  }

  function CloseSl(s: Ledger, k: PosKey, price: real): Ledger
    requires k in s.book
  {
    CloseWhole(s, k, if price > 0.0 then price else s.book[k].slPrice, StopLoss)
  }

  function CloseWs(s: Ledger, k: PosKey, avgPrice: real, realizedPnl: real): Ledger
    requires k in s.book
  {
    var p := s.book[k];
    Booked(s, WsTradeOf(k, p, if avgPrice > 0.0 then avgPrice else p.entryPrice, realizedPnl)).(book := s.book - {k})
  }

  function CloseBy(s: Ledger, k: PosKey, ev: Event): Ledger
    requires k in s.book && !ev.Register?
  {
    match ev
    case Tp(_, _, level, price, accepted) => if s.book[k].isReal && !accepted then s else CloseTp(s, k, level, price)
    case Sl(_, _, price, accepted) => if s.book[k].isReal && !accepted then s else CloseSl(s, k, price)
    case WsUpdate(_, _, avgPrice, realizedPnl) => CloseWs(s, k, avgPrice, realizedPnl)
    case ManualClose(_, _, accepted) => if accepted then CloseWhole(s, k, s.book[k].entryPrice, ManualCloseAll) else s
    case EmergencyClose(_, _, price, accepted) => if accepted then CloseWhole(s, k, price, EmergencyCloseNoSl) else s
  }

  function SideOf(ev: Event): string
    requires !ev.Register?
  {
    match ev
    case Tp(_, direction, _, _, _) => HoldSide(direction)
    case Sl(_, direction, _, _) => HoldSide(direction)
    case WsUpdate(_, side, _, _) => side
    case ManualClose(_, side, _) => side
    case EmergencyClose(_, side, _, _) => side
  }

  /** Closes act on some matching position, whichever the map yields first. */
  ghost predicate Next(s: Ledger, ev: Event, t: Ledger) {
    if ev.Register? then t == Open(s, ev.p)
    else if exists k :: Matches(s.book, k, ev.symbol, SideOf(ev))
    then exists k :: Matches(s.book, k, ev.symbol, SideOf(ev)) && t == CloseBy(s, k, ev)
    else t == s
  }

  lemma NextBy(s: Ledger, k: PosKey, ev: Event)
    requires !ev.Register? && Matches(s.book, k, ev.symbol, SideOf(ev))
    ensures Next(s, ev, CloseBy(s, k, ev))
  {
  }

  // ---- The run invariant ----

  function Pnls(history: seq<Trade>): seq<real> {
    seq(|history|, i requires 0 <= i < |history| => history[i].pnl)
  }

  /** The highest of the starting peak and every balance reached. */
  function PeakOf(balance: real, peak: real, history: seq<Trade>): real {
    if history == [] then peak
    else Max(PeakOf(balance, peak, history[..|history| - 1]), balance + Sum(Pnls(history)))
  }

  function QtyClosed(history: seq<Trade>, key: PosKey): real {
    if history == [] then 0.0
    else
      var t := history[|history| - 1];
      QtyClosed(history[..|history| - 1], key) + if t.key == key then t.quantity else 0.0
  }

  function QtyOpen(book: Book, key: PosKey): real {
    if key in book then book[key].quantity else 0.0
  }

  ghost predicate FiguresRefine(start: Ledger, s: Ledger) {
    && s.balance == start.balance + Sum(Pnls(s.history))
    && s.peak == PeakOf(start.balance, start.peak, s.history)
    && s.trades == LastN(start.trades + s.history, 2000)
  }

  ghost predicate Conserved(s: Ledger) {
    && (forall k :: k in s.book ==> k in s.registered && s.book[k].quantity > 0.0)
    && (forall k :: k in s.registered && k.Opened? ==> k.oid < s.nextOid)
    && (forall k :: k in s.registered ==> QtyClosed(s.history, k) + QtyOpen(s.book, k) == s.registered[k])
    && (forall i :: 0 <= i < |s.history| ==> s.history[i].key in s.registered)
  }

  ghost predicate Inv(start: Ledger, s: Ledger) {
    FiguresRefine(start, s) && Conserved(s)
  }

  lemma BookRefines(start: Ledger, s: Ledger, tr: Trade)
    requires FiguresRefine(start, s)
    ensures FiguresRefine(start, Booked(s, tr))
  {
    hide PeakOf, Sum, Pnls, LastN;
    HistorySnoc(start.balance, start.peak, s.history, tr);
    LastNSnoc(start.trades + s.history, MAX_TRADES, tr);
    assert start.trades + (s.history + [tr]) == start.trades + s.history + [tr];
  }

  lemma HistorySnoc(balance: real, peak: real, history: seq<Trade>, tr: Trade)
    ensures Sum(Pnls(history + [tr])) == Sum(Pnls(history)) + tr.pnl
    ensures PeakOf(balance, peak, history + [tr]) ==
            Max(PeakOf(balance, peak, history), balance + Sum(Pnls(history)) + tr.pnl)
  {
    assert (history + [tr])[..|history|] == history;
    assert Pnls(history + [tr]) == Pnls(history) + [tr.pnl];
    SumSnoc(Pnls(history), tr.pnl);
    hide Sum;
  }

  lemma QtySnoc(history: seq<Trade>, tr: Trade)
    ensures forall k :: QtyClosed(history + [tr], k) == QtyClosed(history, k) + if tr.key == k then tr.quantity else 0.0
  {
    assert (history + [tr])[..|history|] == history;
  }

  lemma {:induction false} NoneClosed(history: seq<Trade>, k: PosKey)
    requires forall i :: 0 <= i < |history| ==> history[i].key != k
    ensures QtyClosed(history, k) == 0.0
  {
    if history != [] {
      NoneClosed(history[..|history| - 1], k);
    }
  }

  lemma OpenKeeps(s: Ledger, p: Position)
    requires Conserved(s) && p.quantity > 0.0
    ensures Conserved(Open(s, p))
  {
    NoneClosed(s.history, Opened(p.symbol, p.timeframe, s.nextOid));
  }

  /** A close that books `tr` and takes its quantity off one position conserves every position. */
  lemma CloseConserves(s: Ledger, t: Ledger, k: PosKey, tr: Trade)
    requires Conserved(s) && k in s.book && tr.key == k
    requires t.history == s.history + [tr] && t.registered == s.registered && t.nextOid == s.nextOid
    requires (t.book == s.book - {k} && tr.quantity == s.book[k].quantity)
             || (t.book == Reduce(s.book, k, tr.quantity) && 0.0 < tr.quantity < s.book[k].quantity)
    ensures Conserved(t)
  {
    QtySnoc(s.history, tr);
    hide QtyClosed;
  }

  /** TP1 and TP2 take a third and a half of what is there, never all of it. */
  lemma PartialsLeave(q: real, level: string)
    requires q > 0.0
    ensures !IsFull(level) ==> 0.0 < q * CloseRatio(level) < q
    ensures IsFull(level) ==> q * CloseRatio(level) == q
    ensures IsFull(level) <==> level != "TP1" && level != "TP2"
  {
  }

  lemma CloseByKeeps(start: Ledger, s: Ledger, k: PosKey, ev: Event)
    requires Inv(start, s) && k in s.book && !ev.Register?
    ensures Inv(start, CloseBy(s, k, ev))
  {
    var p := s.book[k];
    hide CloseTp, CloseWhole, CloseWs, Inv;
    match ev
    case Tp(_, _, level, price, _) => CloseTpKeeps(start, s, k, level, price);
    case Sl(_, _, price, _) => CloseWholeKeeps(start, s, k, if price > 0.0 then price else p.slPrice, StopLoss);
    case WsUpdate(_, _, avgPrice, realizedPnl) => CloseWsKeeps(start, s, k, avgPrice, realizedPnl);
    case ManualClose(_, _, _) => CloseWholeKeeps(start, s, k, p.entryPrice, ManualCloseAll);
    case EmergencyClose(_, _, price, _) => CloseWholeKeeps(start, s, k, price, EmergencyCloseNoSl);
  }

  lemma CloseTpKeeps(start: Ledger, s: Ledger, k: PosKey, level: string, price: real)
    requires Inv(start, s) && k in s.book
    ensures Inv(start, CloseTp(s, k, level, price))
  {
    var p := s.book[k];
    var asked := p.quantity * CloseRatio(level);
    assert p.quantity > 0.0;
    PartialsLeave(p.quantity, level);
    hide CalcPnl, CalcFee, Inv, Booked, CloseRatio, IsFull, Reduce;
    var exit := if price > 0.0 then price else p.entryPrice;
    var tr := TradeOf(k, p, exit, TakeProfit(level, !IsFull(level)), asked);
    TpKeeps(start, s, k, tr, level, CloseTp(s, k, level, price));
  }

  lemma CloseWholeKeeps(start: Ledger, s: Ledger, k: PosKey, exit: real, reason: Reason)
    requires Inv(start, s) && k in s.book
    ensures Inv(start, CloseWhole(s, k, exit, reason))
  {
    hide CalcPnl, CalcFee, Inv, Booked;
    FullKeeps(start, s, k, TradeOf(k, s.book[k], exit, reason, 0.0), CloseWhole(s, k, exit, reason));
  }

  lemma CloseWsKeeps(start: Ledger, s: Ledger, k: PosKey, avgPrice: real, realizedPnl: real)
    requires Inv(start, s) && k in s.book
    ensures Inv(start, CloseWs(s, k, avgPrice, realizedPnl))
  {
    hide CalcPnl, CalcFee, Inv, Booked;
    var exit := if avgPrice > 0.0 then avgPrice else s.book[k].entryPrice;
    FullKeeps(start, s, k, WsTradeOf(k, s.book[k], exit, realizedPnl), CloseWs(s, k, avgPrice, realizedPnl));
  }

  lemma BooksAside(start: Ledger, s: Ledger, t: Ledger)
    requires FiguresRefine(start, s) && t == s.(book := t.book)
    ensures FiguresRefine(start, t)
  {
  }

  lemma FullKeeps(start: Ledger, s: Ledger, k: PosKey, tr: Trade, t: Ledger)
    requires Inv(start, s) && k in s.book && tr.key == k && tr.quantity == s.book[k].quantity
    requires t == Booked(s, tr).(book := s.book - {k})
    ensures Inv(start, t)
  {
    BookRefines(start, s, tr);
    hide FiguresRefine;
    BooksAside(start, Booked(s, tr), t);
    CloseConserves(s, t, k, tr);
  }

  lemma TpKeeps(start: Ledger, s: Ledger, k: PosKey, tr: Trade, level: string, t: Ledger)
    requires Inv(start, s) && k in s.book && tr.key == k
    requires tr.quantity == s.book[k].quantity * CloseRatio(level)
    requires t == Booked(s, tr).(book := if IsFull(level) then s.book - {k} else Reduce(s.book, k, tr.quantity))
    ensures Inv(start, t)
  {
    BookRefines(start, s, tr);
    PartialsLeave(s.book[k].quantity, level);
    hide FiguresRefine, CloseRatio, IsFull;
    BooksAside(start, Booked(s, tr), t);
    CloseConserves(s, t, k, tr);
  }

  ghost predicate EventOk(ev: Event) {
    ev.Register? ==> ev.p.quantity > 0.0
  }

  lemma NextKeeps(start: Ledger, s: Ledger, ev: Event, t: Ledger)
    requires Inv(start, s) && Next(s, ev, t) && EventOk(ev)
    ensures Inv(start, t)
  {
    hide FiguresRefine, Conserved, CloseBy;
    if ev.Register? {
      OpenKeeps(s, ev.p);
      OpenFigures(start, s, ev.p);
    } else if t != s {
      var k :| Matches(s.book, k, ev.symbol, SideOf(ev)) && t == CloseBy(s, k, ev);
      CloseByKeeps(start, s, k, ev);
    }
  }

  lemma OpenFigures(start: Ledger, s: Ledger, p: Position)
    requires FiguresRefine(start, s)
    ensures FiguresRefine(start, Open(s, p))
  {
  }

  /** A start-up, with whatever positions and trades were restored. */
  ghost predicate Start(s: Ledger) {
    && s.registered == (map k | k in s.book :: s.book[k].quantity)
    && (forall k :: k in s.book ==> s.book[k].quantity > 0.0 && (k.Opened? ==> k.oid < s.nextOid))
    && s.history == [] && |s.trades| <= MAX_TRADES && s.balance <= s.peak
  }

  ghost predicate IsRun(states: seq<Ledger>, events: seq<Event>) {
    && |states| == |events| + 1
    && forall i :: 0 <= i < |events| ==> Next(states[i], events[i], states[i + 1]) && EventOk(events[i])
  }

  /**
   In every reachable state the balance is the start plus every PnL ever recorded, the trade list
   is the tail of the history, and each position's closed and open quantities add up to what was registered.
   */
  lemma {:induction false} EveryRunBalances(states: seq<Ledger>, events: seq<Event>, i: nat)
    requires IsRun(states, events) && Start(states[0]) && i < |states|
    ensures Inv(states[0], states[i])
  {
    hide Inv, Next;
    if i == 0 {
      StartHolds(states[0]);
    } else {
      EveryRunBalances(states, events, i - 1);
      assert Next(states[i - 1], events[i - 1], states[i - 1 + 1]);
      NextKeeps(states[0], states[i - 1], events[i - 1], states[i]);
    }
  }

  lemma StartHolds(s: Ledger)
    requires Start(s)
    ensures Inv(s, s)
  {
  }

  /** The peak bounds every balance the run has passed through. */
  lemma {:induction false} PeakBoundsBalances(balance: real, peak: real, history: seq<Trade>, n: nat)
    requires balance <= peak && n <= |history|
    ensures balance + Sum(Pnls(history[..n])) <= PeakOf(balance, peak, history)
    ensures PeakOf(balance, peak, history[..n]) <= PeakOf(balance, peak, history)
    decreases |history|
  {
    if n == |history| {
      assert history[..n] == history;
    } else {
      PeakBoundsBalances(balance, peak, history[..|history| - 1], n);
      assert history[..|history| - 1][..n] == history[..n];
    }
  }

  /** The peak never falls from one state of a run to the next, and never lies below the balance. */
  lemma PeakNeverFalls(states: seq<Ledger>, events: seq<Event>, i: nat)
    requires IsRun(states, events) && Start(states[0]) && i < |events|
    ensures states[i].peak <= states[i + 1].peak && states[i + 1].balance <= states[i + 1].peak
  {
    hide Next, Conserved, Sum, PeakOf, Pnls;
    EveryRunBalances(states, events, i + 1);
    var t := states[i + 1];
    PeakBoundsBalances(states[0].balance, states[0].peak, t.history, |t.history|);
    assert t.history[..|t.history|] == t.history;
    assert Next(states[i], events[i], t);
    NextRaisesPeak(states[i], events[i], t);
  }

  lemma NextRaisesPeak(s: Ledger, ev: Event, t: Ledger)
    requires Next(s, ev, t)
    ensures s.peak <= t.peak
  {
    hide TradeOf, WsTradeOf, Reduce, CloseRatio, IsFull, LastN;
  }

  /** The quantity left after a sequence of TP signals on one position; nothing once one closes it. */
  function AfterTps(q: real, levels: seq<string>): Option<real> {
    if levels == [] then Some(q)
    else
      match AfterTps(q, levels[..|levels| - 1])
      case None => None
      case Some(r) => AfterTp(r, levels[|levels| - 1])
  }

  function AfterTp(q: real, level: string): Option<real> {
    if IsFull(level) then None else Some(q - q * CloseRatio(level))
  }

  /** A position is emptied by TP signals exactly when one of them is neither TP1 nor TP2. */
  lemma {:induction false} OnlyFullLevelsEmpty(q: real, levels: seq<string>)
    requires q > 0.0
    ensures AfterTps(q, levels).None? <==> exists i :: 0 <= i < |levels| && levels[i] != "TP1" && levels[i] != "TP2"
    ensures AfterTps(q, levels).Some? ==> 0.0 < AfterTps(q, levels).value <= q
  {
    if levels != [] {
      var n := |levels| - 1;
      OnlyFullLevelsEmpty(q, levels[..n]);
      match AfterTps(q, levels[..n])
      case None =>
        var i :| 0 <= i < n && levels[..n][i] != "TP1" && levels[..n][i] != "TP2";
        assert levels[i] == levels[..n][i];
      case Some(r) =>
        PartialsLeave(r, levels[n]);
        forall i | 0 <= i < n
          ensures levels[i] == "TP1" || levels[i] == "TP2"
        {
          assert levels[..n][i] == levels[i];
        }
    }
  }

  /** TP1 and TP2 in either order leave 33.5% of the position for TP3; TP1 leaves 67%, TP2 half. */
  lemma ThirdsInTurn(q: real)
    ensures AfterTps(q, ["TP1"]) == Some(0.67 * q) && AfterTps(q, ["TP2"]) == Some(0.5 * q)
    ensures AfterTps(q, ["TP1", "TP2"]) == AfterTps(q, ["TP2", "TP1"]) == Some(0.335 * q)
    ensures AfterTps(q, ["TP1", "TP2", "TP3"]) == None
  {
    hide *;
    AfterTpIs(q);
    AfterTpIs(0.67 * q);
    AfterTpIs(0.5 * q);
    AfterTpIs(0.335 * q);
    OneMoreTp(q, [], "TP1");
    OneMoreTp(q, [], "TP2");
    OneMoreTp(q, ["TP1"], "TP2");
    OneMoreTp(q, ["TP2"], "TP1");
    OneMoreTp(q, ["TP1", "TP2"], "TP3");
  }

  lemma AfterTpIs(q: real)
    ensures AfterTp(q, "TP1") == Some(0.67 * q) && AfterTp(q, "TP2") == Some(0.5 * q) && AfterTp(q, "TP3") == None
  {
    assert "TP1"[2] != "TP2"[2] && "TP3"[2] != "TP1"[2] && "TP3"[2] != "TP2"[2];
  }

  lemma OneMoreTp(q: real, levels: seq<string>, level: string)
    ensures AfterTps(q, levels + [level]) ==
            if AfterTps(q, levels).None? then None else AfterTp(AfterTps(q, levels).value, level)
    ensures levels == [] ==> levels + [level] == [level] && AfterTps(q, levels) == Some(q)
    ensures |levels| == 1 ==> levels + [level] == [levels[0], level]
    ensures |levels| == 2 ==> levels + [level] == [levels[0], levels[1], level]
  {
    hide AfterTp;
    var all := levels + [level];
    assert all[..|all| - 1] == levels && all[|all| - 1] == level;
  }

  /** In the ledger too: a partial TP leaves its position in the book with a positive quantity. */
  lemma PartialTpKeepsPosition(s: Ledger, k: PosKey, level: string, price: real)
    requires Conserved(s) && k in s.book
    ensures k in CloseTp(s, k, level, price).book <==> level == "TP1" || level == "TP2"
    ensures AfterTps(s.book[k].quantity, [level]) ==
            if k in CloseTp(s, k, level, price).book then Some(CloseTp(s, k, level, price).book[k].quantity) else None
  {
    PartialsLeave(s.book[k].quantity, level);
    assert [level][..0] == [];
    hide CalcPnl, CalcFee, TradeOf;
  }

  // ---- What each event books, in its own terms ----

  /** Whether a close signal's direction is that of the side: bullish ones are for longs, all others for shorts. */
  predicate ForSide(direction: string, side: string) {
    side == if direction == "bull" then "long" else "short"
  }

  /** The position an event is about, by symbol and side. */
  ghost predicate Concerns(ev: Event, p: Position)
    requires !ev.Register?
  {
    && p.symbol == ev.symbol
    && if ev.Tp? || ev.Sl? then ForSide(ev.direction, p.side) else p.side == ev.side
  }

  /** The exchange, or whoever closes by hand, did not go through with it. Paper positions do not ask. */
  predicate Refused(ev: Event, p: Position)
    requires !ev.Register?
  {
    match ev
    case Tp(_, _, _, _, accepted) => p.isReal && !accepted
    case Sl(_, _, _, accepted) => p.isReal && !accepted
    case WsUpdate(_, _, _, _) => false
    case ManualClose(_, _, accepted) => !accepted
    case EmergencyClose(_, _, _, accepted) => !accepted
  }

  /** The signal's price when it has one; else a TP and an external close leave at the entry, an SL at the stop. */
  function ExitPrice(ev: Event, p: Position): real
    requires !ev.Register?
  {
    match ev
    case Tp(_, _, _, price, _) => if price > 0.0 then price else p.entryPrice
    case Sl(_, _, price, _) => if price > 0.0 then price else p.slPrice
    case WsUpdate(_, _, price, _) => if price > 0.0 then price else p.entryPrice
    case ManualClose(_, _, _) => p.entryPrice
    case EmergencyClose(_, _, price, _) => price
  }

  /** A third at TP1, half at TP2, everything otherwise. */
  function Share(ev: Event): real {
    if ev.Tp? && ev.level == "TP1" then 0.33 else if ev.Tp? && ev.level == "TP2" then 0.5 else 1.0
  }

  function ReasonOf(ev: Event): Reason
    requires !ev.Register?
  {
    match ev
    case Tp(_, _, level, _, _) => TakeProfit(level, level == "TP1" || level == "TP2")
    case Sl(_, _, _, _) => StopLoss
    case WsUpdate(_, _, _, _) => WsClose
    case ManualClose(_, _, _) => ManualCloseAll
    case EmergencyClose(_, _, _, _) => EmergencyCloseNoSl
  }

  /** The move in the position's direction on the quantity closed, less 0.12% of the exit value. */
  function Earned(p: Position, exit: real, quantity: real): real {
    (if p.entryPrice <= 0.0 then 0.0
     else if p.side == "long" then (exit - p.entryPrice) * quantity
     else (p.entryPrice - exit) * quantity) - 0.0012 * exit * quantity
  }

  /** The record of the event's close of `p`. */
  ghost predicate Accounts(tr: Trade, key: PosKey, p: Position, ev: Event)
    requires !ev.Register?
  {
    && tr.key == key && tr.symbol == p.symbol && tr.timeframe == p.timeframe && tr.strategy == p.strategy
    && tr.reason == ReasonOf(ev) && tr.entryPrice == p.entryPrice && tr.exitPrice == ExitPrice(ev, p)
    && tr.quantity == Share(ev) * p.quantity
    && tr.fee == 0.0012 * tr.exitPrice * tr.quantity
    && tr.pnl == if ev.WsUpdate? && (ev.realizedPnl > 0.0001 || ev.realizedPnl < -0.0001)
                 then ev.realizedPnl - tr.fee
                 else Earned(p, tr.exitPrice, tr.quantity)
  }

  /** One record more, its profit on the balance, and its quantity off the position, which goes when nothing is left. */
  ghost predicate Settles(s: Ledger, t: Ledger, key: PosKey, ev: Event)
    requires !ev.Register? && key in s.book
  {
    var p := s.book[key];
    var n := |s.history|;
    && |t.history| == n + 1 && t.history[..n] == s.history && Accounts(t.history[n], key, p, ev)
    && t.balance == s.balance + t.history[n].pnl
    && t.nextOid == s.nextOid && t.registered == s.registered
    && t.book == if Share(ev) == 1.0 then s.book - {key}
                 else s.book[key := p.(quantity := p.quantity - t.history[n].quantity)]
  }

  lemma EarnedIs(p: Position, exit: real, quantity: real)
    requires quantity > 0.0
    ensures CalcPnl(p.side, p.entryPrice, exit, quantity) - CalcFee(exit, quantity) == Earned(p, exit, quantity)
    ensures CalcFee(exit, quantity) == 0.0012 * exit * quantity
  {
  }

  lemma TpAccounts(key: PosKey, p: Position, ev: Event)
    requires ev.Tp? && p.quantity > 0.0
    ensures var asked := p.quantity * CloseRatio(ev.level);
            && Accounts(TradeOf(key, p, ExitPrice(ev, p), TakeProfit(ev.level, !IsFull(ev.level)), asked), key, p, ev)
            && (IsFull(ev.level) <==> Share(ev) == 1.0) && asked == Share(ev) * p.quantity
  {
    PartialsLeave(p.quantity, ev.level);
    assert CloseRatio(ev.level) == Share(ev);
    hide CloseRatio, IsFull, Share;
    EarnedIs(p, ExitPrice(ev, p), p.quantity * CloseRatio(ev.level));
    hide CalcPnl, CalcFee, Earned, ExitPrice;
  }

  lemma WholeAccounts(key: PosKey, p: Position, ev: Event)
    requires !ev.Register? && !ev.Tp? && p.quantity > 0.0
    ensures Share(ev) == 1.0
    ensures ev.WsUpdate? ==> Accounts(WsTradeOf(key, p, ExitPrice(ev, p), ev.realizedPnl), key, p, ev)
    ensures !ev.WsUpdate? ==> Accounts(TradeOf(key, p, ExitPrice(ev, p), ReasonOf(ev), 0.0), key, p, ev)
  {
    EarnedIs(p, ExitPrice(ev, p), p.quantity);
    hide CalcPnl, CalcFee, Earned, ExitPrice;
  }

  lemma CloseSettles(s: Ledger, k: PosKey, ev: Event)
    requires k in s.book && s.book[k].quantity > 0.0 && !ev.Register? && !Refused(ev, s.book[k])
    ensures Settles(s, CloseBy(s, k, ev), k, ev)
  {
    var p := s.book[k];
    if ev.Tp? {
      TpAccounts(k, p, ev);
      PartialsLeave(p.quantity, ev.level);
      hide CloseRatio, IsFull, Share, Accounts, TradeOf, LastN;
    } else {
      WholeAccounts(k, p, ev);
      hide Share, Accounts, TradeOf, WsTradeOf, LastN;
    }
  }

  /**
   A close signal or an external close settles one position of its symbol and side, as the records say;
   nothing happens if there is none or the close was refused.
   */
  lemma ClosesSettle(s: Ledger, ev: Event, t: Ledger)
    requires Conserved(s) && Next(s, ev, t) && !ev.Register?
    ensures t != s ==> exists k :: k in s.book && Concerns(ev, s.book[k]) && !Refused(ev, s.book[k])
                                   && Settles(s, t, k, ev)
    ensures t == s ==> (forall k :: k in s.book ==> !Concerns(ev, s.book[k]))
                       || exists k :: k in s.book && Concerns(ev, s.book[k]) && Refused(ev, s.book[k])
  {
    hide Settles, CloseBy;
    assert forall k :: k in s.book ==> (Matches(s.book, k, ev.symbol, SideOf(ev)) <==> Concerns(ev, s.book[k]));
    hide Concerns, SideOf;
    if exists k :: Matches(s.book, k, ev.symbol, SideOf(ev)) {
      var k :| Matches(s.book, k, ev.symbol, SideOf(ev)) && t == CloseBy(s, k, ev);
      if Refused(ev, s.book[k]) {
        RefusedStays(s, k, ev);
      } else {
        CloseSettles(s, k, ev);
        SettlingChanges(s, t, k, ev);
      }
    }
  }

  lemma RefusedStays(s: Ledger, k: PosKey, ev: Event)
    requires k in s.book && !ev.Register? && Refused(ev, s.book[k])
    ensures CloseBy(s, k, ev) == s
  {
  }

  lemma SettlingChanges(s: Ledger, t: Ledger, k: PosKey, ev: Event)
    requires !ev.Register? && k in s.book && Settles(s, t, k, ev)
    ensures t != s
  {
    hide Accounts;
  }

  /**
   So a close at its own price raises the balance exactly when the move beats 0.12% of the exit price.
   */
  lemma BalanceRisesIff(s: Ledger, ev: Event, t: Ledger, k: PosKey)
    requires !ev.Register? && !ev.WsUpdate? && k in s.book && s.book[k].quantity > 0.0 && s.book[k].entryPrice > 0.0
    requires Settles(s, t, k, ev)
    ensures var entry, exit := s.book[k].entryPrice, ExitPrice(ev, s.book[k]);
            t.balance > s.balance <==>
            if s.book[k].side == "long" then exit - entry > 0.0012 * exit else entry - exit > 0.0012 * exit
  {
    var p := s.book[k];
    var q, exit := Share(ev) * p.quantity, ExitPrice(ev, p);
    var edge := (if p.side == "long" then exit - p.entryPrice else p.entryPrice - exit) - 0.0012 * exit;
    assert q > 0.0;
    hide Share, ExitPrice;
    assert Earned(p, exit, q) == q * edge;
    SignOfProduct(q, edge);
  }

  /** A registration files the position as it is under the next order id, and moves no money. */
  lemma RegistrationFiles(s: Ledger, p: Position, t: Ledger)
    requires Next(s, Register(p), t)
    ensures t.book == s.book[PosKey.Opened(p.symbol, p.timeframe, s.nextOid) := p] && t.nextOid == s.nextOid + 1
    ensures t.balance == s.balance && t.peak == s.peak && t.trades == s.trades && t.history == s.history
  {
  }

  // ---- The engine's bookkeeping ----

  class PaperDesk {
    var positions: Book
    var nextOid: nat
    var balance: real
    var peakBalance: real
    var trades: seq<Trade>
    ghost var registered: map<PosKey, real>
    ghost var history: seq<Trade>

    ghost function Abs(): Ledger
      reads this
    {
      Ledger(positions, nextOid, balance, peakBalance, trades, registered, history)
    }

    /** Starts from a restored state; `firstOid` is above every restored order id. */
    constructor (balance: real, peakBalance: real, positions: Book, trades: seq<Trade>, firstOid: nat)
      requires balance <= peakBalance && |trades| <= MAX_TRADES
      requires forall k :: k in positions ==> positions[k].quantity > 0.0 && (k.Opened? ==> k.oid < firstOid)
      ensures Start(Abs()) && Abs().balance == balance && Abs().peak == peakBalance
      ensures Abs().book == positions && Abs().trades == trades
    {
      this.balance, this.peakBalance := balance, peakBalance;
      this.positions, this.trades, nextOid := positions, trades, firstOid;
      registered, history := map k | k in positions :: positions[k].quantity, [];
    }

    method RegisterPosition(p: Position)
      modifies this
      ensures Next(old(Abs()), Register(p), Abs())
    {
      var key := Opened(p.symbol, p.timeframe, nextOid);
      nextOid := nextOid + 1;
      positions := positions[key := p];
      registered := registered[key := p.quantity];
    }

    method FindBySymbolSide(symbol: string, side: string) returns (found: Option<PosKey>)
      ensures found.Some? ==> Matches(positions, found.value, symbol, side)
      ensures found.None? ==> forall k :: !Matches(positions, k, symbol, side)
    {
      var todo := positions.Keys;
      while todo != {}
        invariant todo <= positions.Keys
        invariant forall k :: k in positions && k !in todo ==> !Matches(positions, k, symbol, side)
        decreases |todo|
      {
        var k :| k in todo;
        if positions[k].symbol == symbol && positions[k].side == side {
          return Some(k);
        }
        todo := todo - {k};
      }
      return None;
    }

    /** `accepted` is the exchange's answer after the retries; paper positions do not ask. */
    method HandleTp(symbol: string, direction: string, level: string, price: real, accepted: bool)
      modifies this
      ensures Next(old(Abs()), Tp(symbol, direction, level, price, accepted), Abs())
    {
      hide TradeOf, Booked;
      var found := FindBySymbolSide(symbol, HoldSide(direction));
      if found.None? {
        return;
      }
      NextBy(Abs(), found.value, Tp(symbol, direction, level, price, accepted));
      var key := found.value;
      var p := positions[key];
      if p.isReal && !accepted {
        return;
      }
      var asked := p.quantity * CloseRatio(level);
      var exit := if price > 0.0 then price else p.entryPrice;
      if IsFull(level) {
        RecordClose(key, p, exit, TakeProfit(level, false), asked);
        positions := positions - {key};
      } else {
        RecordClose(key, p, exit, TakeProfit(level, true), asked);
        ReduceQuantity(key, asked);
      }
    }

    method HandleSl(symbol: string, direction: string, price: real, accepted: bool)
      modifies this
      ensures Next(old(Abs()), Sl(symbol, direction, price, accepted), Abs())
    {
      hide TradeOf, Booked;
      var found := FindBySymbolSide(symbol, HoldSide(direction));
      if found.None? {
        return;
      }
      NextBy(Abs(), found.value, Sl(symbol, direction, price, accepted));
      var key := found.value;
      var p := positions[key];
      if p.isReal && !accepted {
        return;
      }
      RecordClose(key, p, if price > 0.0 then price else p.slPrice, StopLoss, 0.0);
      positions := positions - {key};
    }

    method HandleWsClose(symbol: string, side: string, avgPrice: real, realizedPnl: real)
      modifies this
      ensures Next(old(Abs()), WsUpdate(symbol, side, avgPrice, realizedPnl), Abs())
    {
      hide WsTradeOf, Booked;
      var found := FindBySymbolSide(symbol, side);
      if found.None? {
        return;
      }
      NextBy(Abs(), found.value, WsUpdate(symbol, side, avgPrice, realizedPnl));
      var key := found.value;
      var p := positions[key];
      RecordTrade(WsTradeOf(key, p, if avgPrice > 0.0 then avgPrice else p.entryPrice, realizedPnl));
      positions := positions - {key};
    }

    /** One position of a bulk close, booked at its entry price once the exchange has closed it. */
    method HandleManualClose(symbol: string, side: string, accepted: bool)
      modifies this
      ensures Next(old(Abs()), ManualClose(symbol, side, accepted), Abs())
    {
      hide TradeOf, Booked;
      if !accepted {
        return;
      }
      var found := FindBySymbolSide(symbol, side);
      if found.None? {
        return;
      }
      NextBy(Abs(), found.value, ManualClose(symbol, side, accepted));
      var p := positions[found.value];
      RecordClose(found.value, p, p.entryPrice, ManualCloseAll, 0.0);
      positions := positions - {found.value};
    }

    /** The close of a position whose stop loss could not be set. */
    method HandleEmergencyClose(symbol: string, side: string, price: real, accepted: bool)
      modifies this
      ensures Next(old(Abs()), EmergencyClose(symbol, side, price, accepted), Abs())
    {
      hide TradeOf;
      if !accepted {
        return;
      }
      var found := FindBySymbolSide(symbol, side);
      if found.None? {
        return;
      }
      NextBy(Abs(), found.value, EmergencyClose(symbol, side, price, accepted));
      var p := positions[found.value];
      positions := positions - {found.value};
      RecordClose(found.value, p, price, EmergencyCloseNoSl, 0.0);
    }

    method ReduceQuantity(key: PosKey, amount: real)
      modifies `positions
      ensures positions == Reduce(old(positions), key, amount)
    {
      if key in positions {
        var left := positions[key].quantity - amount;
        positions := positions[key := positions[key].(quantity := left)];
        if left <= 0.0 {
          positions := positions - {key};
        }
      }
    }

    method RecordClose(key: PosKey, p: Position, exit: real, reason: Reason, closeQty: real)
      modifies `trades, `history, `balance, `peakBalance
      ensures Abs() == Booked(old(Abs()), TradeOf(key, p, exit, reason, closeQty))
    {
      hide CalcFee, CalcPnl, Booked;
      var qty := if closeQty <= 0.0 then p.quantity else closeQty;
      var fee := CalcFee(exit, qty);
      var pnl := CalcPnl(p.side, p.entryPrice, exit, qty) - fee;
      RecordTrade(Trade(key, p.symbol, p.timeframe, reason, p.strategy, p.entryPrice, exit, qty, pnl, fee));
    }

    method RecordTrade(tr: Trade)
      modifies `trades, `history, `balance, `peakBalance
      ensures Abs() == Booked(old(Abs()), tr)
    {
      trades := trades + [tr];
      history := history + [tr];
      if |trades| > MAX_TRADES {
        trades := trades[|trades| - MAX_TRADES..];
      }
      balance := balance + tr.pnl;
      if balance > peakBalance {
        peakBalance := balance;
      }
    }
  }
}
