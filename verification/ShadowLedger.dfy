/**
 The futures shadow tracker: every signal is followed virtually, one position per symbol,
 timeframe and side, reversals close the opposite side, and the statistics, the capped trade
 list and the live-equivalent bookkeeping all refine one full history.
 */
module ShadowLedger {
  import opened FiniteSums

  const VIRTUAL_NOTIONAL := 100.0
  const TAKER_FEE := 0.0006
  const MAX_TRADES := 5000
  const MAX_LIVE_TRADES := 2000

  datatype Side = Long | Short

  datatype Reason = Reversal | TakeProfit | StopLoss

  datatype SignalType = Entry | ReEntry | TP | SL | Unknown

  datatype Signal = Signal(
    kind: SignalType, symbol: string, timeframe: string, marketType: string,
    action: string, direction: string, price: real, sl: real, tp1: real, strategy: string)

  /** `SYMBOL:TF:SIDE`. */
  datatype Key = Key(symbol: string, timeframe: string, side: Side)

  datatype VirtualPosition = VirtualPosition(
    symbol: string, timeframe: string, side: Side, strategy: string,
    entryPrice: real, slPrice: real, tp1Price: real)

  datatype Trade = Trade(
    symbol: string, timeframe: string, side: Side, reason: Reason, strategy: string,
    entryPrice: real, exitPrice: real, quantity: real,
    grossPnl: real, fee: real, pnl: real, realizedRr: real)

  /** Counters, sums and capped trades of one statistic, with the history they stand for. */
  datatype Stats = Stats(closes: nat, wins: nat, losses: nat, totalPnl: real, trades: seq<Trade>, history: seq<Trade>)

  /** `remarks` counts the marks that found their key already pending. */
  datatype Ledger = Ledger(
    positions: map<Key, VirtualPosition>, entries: nat, all: Stats,
    liveKeys: set<Key>, liveEntries: nat, remarks: nat, live: Stats)

  function DirToSide(sig: Signal): Side {
    if sig.kind.Entry? || sig.kind.ReEntry?
    then if sig.action == "buy" then Long else Short
    else if sig.direction == "bull" then Long else Short
  }

  function KeyOf(sig: Signal): Key {
    Key(sig.symbol, if sig.timeframe == "" then "0" else sig.timeframe, DirToSide(sig))
  }

  function Opposite(k: Key): Key {
    k.(side := if k.side.Long? then Short else Long)
  }

  function PositionOf(sig: Signal): VirtualPosition {
    VirtualPosition(sig.symbol, KeyOf(sig).timeframe, DirToSide(sig), sig.strategy, sig.price, sig.sl, sig.tp1)
  }

  // ---- The profit of a close ----

  function Abs(x: real): real {
    if x < 0.0 then -x else x
  }

  function Quantity(entryPrice: real): real {
    if entryPrice > 0.0 then VIRTUAL_NOTIONAL / entryPrice else 0.0
  }

  function GrossPnl(vp: VirtualPosition, exitPrice: real): real {
    (if vp.side.Long? then 1.0 else -1.0) * (exitPrice - vp.entryPrice) * Quantity(vp.entryPrice)
  }

  function Fee(vp: VirtualPosition, exitPrice: real): real {
    vp.entryPrice * Quantity(vp.entryPrice) * TAKER_FEE + exitPrice * Quantity(vp.entryPrice) * TAKER_FEE
  }

  function NetPnl(vp: VirtualPosition, exitPrice: real): real {
    GrossPnl(vp, exitPrice) - Fee(vp, exitPrice)
  }

  /** What a hit stop is planned to cost. */
  function PlannedRisk(vp: VirtualPosition): real {
    Abs(vp.entryPrice - vp.slPrice) * Quantity(vp.entryPrice)
  }

  /** Profit per unit of planned risk, or per notional when the signal carried no stop. */
  function RealizedRr(vp: VirtualPosition, exitPrice: real): real {
    var pnl := NetPnl(vp, exitPrice);
    if vp.entryPrice > 0.0 then Ratio(pnl, AtRisk(vp)) else 0.0
  }

  function AtRisk(vp: VirtualPosition): real {
    if vp.slPrice > 0.0 then PlannedRisk(vp) else EntryNotional(vp)
  }

  function EntryNotional(vp: VirtualPosition): real {
    vp.entryPrice * Quantity(vp.entryPrice)
  }

  function Ratio(pnl: real, base: real): real {
    if base > 0.0001 then pnl / base else 0.0
  }

  function TradeOf(vp: VirtualPosition, exitPrice: real, reason: Reason): Trade {
    Trade(vp.symbol, vp.timeframe, vp.side, reason, vp.strategy, vp.entryPrice, exitPrice, Quantity(vp.entryPrice),
          GrossPnl(vp, exitPrice), Fee(vp, exitPrice), NetPnl(vp, exitPrice), RealizedRr(vp, exitPrice))
  }

  /** A close counts as a win exactly when the move beats 0.06% paid on each side. */
  lemma WinExactly(vp: VirtualPosition, exitPrice: real)
    requires vp.entryPrice > 0.0
    ensures NetPnl(vp, exitPrice) > 0.0 <==>
            if vp.side.Long?
            then exitPrice * (1.0 - TAKER_FEE) > vp.entryPrice * (1.0 + TAKER_FEE)
            else vp.entryPrice * (1.0 - TAKER_FEE) > exitPrice * (1.0 + TAKER_FEE)
  {
    var q := Quantity(vp.entryPrice);
    var move := if vp.side.Long? then exitPrice - vp.entryPrice else vp.entryPrice - exitPrice;
    var edge := move - (vp.entryPrice + exitPrice) * TAKER_FEE;
    assert q > 0.0;
    assert NetPnl(vp, exitPrice) == q * edge;
    SignOfProduct(q, edge);
  }

  /** A stop that is hit loses one planned risk and the fees on top. */
  lemma StopCostsOneRisk(vp: VirtualPosition)
    requires vp.slPrice > 0.0 && vp.entryPrice > 0.0
    requires if vp.side.Long? then vp.slPrice < vp.entryPrice else vp.entryPrice < vp.slPrice
    requires PlannedRisk(vp) > 0.0001
    ensures GrossPnl(vp, vp.slPrice) == -PlannedRisk(vp)
    ensures RealizedRr(vp, vp.slPrice) < -1.0
  {
    StopLosesRisk(vp);
    FeePositive(vp.entryPrice, vp.slPrice, Quantity(vp.entryPrice));
    hide PlannedRisk, GrossPnl, Quantity;
    BelowMinusOne(NetPnl(vp, vp.slPrice), PlannedRisk(vp));
  }

  lemma StopLosesRisk(vp: VirtualPosition)
    requires vp.entryPrice > 0.0
    requires if vp.side.Long? then vp.slPrice < vp.entryPrice else vp.entryPrice < vp.slPrice
    ensures GrossPnl(vp, vp.slPrice) == -PlannedRisk(vp) && Quantity(vp.entryPrice) > 0.0
  {
    var qty := Quantity(vp.entryPrice);
    assert qty > 0.0;
  }

  lemma FeePositive(entry: real, exit: real, qty: real)
    requires entry > 0.0 && exit > 0.0 && qty > 0.0
    ensures entry * qty * TAKER_FEE + exit * qty * TAKER_FEE > 0.0
  {
    assert entry * qty > 0.0 && exit * qty > 0.0;
  }

  lemma BelowMinusOne(pnl: real, risk: real)
    requires risk > 0.0 && pnl < -risk
    ensures pnl / risk < -1.0
  {
    var q := pnl / risk;
    assert q * risk == pnl;
    assert risk * -(q + 1.0) == -risk - pnl;
    SignOfProduct(risk, -(q + 1.0));
  }

  // ---- The steps ----

  function Book(st: Stats, tr: Trade, cap: nat): Stats {
    Stats(st.closes + 1,
          if tr.pnl > 0.0 then st.wins + 1 else st.wins,
          if tr.pnl > 0.0 then st.losses else st.losses + 1,
          st.totalPnl + tr.pnl,
          LastN(st.trades + [tr], cap),
          st.history + [tr])
  }

  function CloseAt(s: Ledger, k: Key, exitPrice: real, reason: Reason): Ledger
    requires k in s.positions
  {
    var vp := s.positions[k];
    var tr := TradeOf(vp, exitPrice, reason);
    var posKey := Key(vp.symbol, vp.timeframe, vp.side);
    var s1 := s.(all := Book(s.all, tr, MAX_TRADES), positions := s.positions - {k});
    if posKey in s.liveKeys
    then s1.(live := Book(s.live, tr, MAX_LIVE_TRADES), liveKeys := s.liveKeys - {posKey})
    else s1
  }

  function Open(s: Ledger, sig: Signal): Ledger {
    s.(positions := s.positions[KeyOf(sig) := PositionOf(sig)], entries := s.entries + 1)
  }

  function TrackEntry(s: Ledger, sig: Signal): Ledger {
    var k := KeyOf(sig);
    if k in s.positions then s
    else if Opposite(k) in s.positions then Open(CloseAt(s, Opposite(k), sig.price, Reversal), sig)
    else Open(s, sig)
  }

  ghost predicate Matches(s: Ledger, k: Key, sig: Signal) {
    k in s.positions && s.positions[k].symbol == sig.symbol && s.positions[k].side == DirToSide(sig)
  }

  /** A TP or SL closes its own key, else some position of the symbol and side, else nothing. */
  ghost predicate TrackExit(s: Ledger, sig: Signal, reason: Reason, t: Ledger) {
    if KeyOf(sig) in s.positions then t == CloseAt(s, KeyOf(sig), sig.price, reason)
    else if exists k :: Matches(s, k, sig) then exists k :: Matches(s, k, sig) && t == CloseAt(s, k, sig.price, reason)
    else t == s
  }

  datatype Event = Track(sig: Signal) | MarkLiveEquivalent(key: Key)

  ghost predicate Next(s: Ledger, ev: Event, t: Ledger) {
    match ev
    case MarkLiveEquivalent(key) =>
      t == s.(liveKeys := s.liveKeys + {key}, liveEntries := s.liveEntries + 1,
      remarks := if key in s.liveKeys then s.remarks + 1 else s.remarks)
    case Track(sig) =>
      if sig.marketType == "spot" || sig.symbol == "" then t == s
      else
        match sig.kind
        case Entry => t == TrackEntry(s, sig)
        case ReEntry => t == TrackEntry(s, sig)
        case TP => TrackExit(s, sig, TakeProfit, t)
        case SL => TrackExit(s, sig, StopLoss, t)
        case Unknown => t == s
  }

  // ---- The run invariant ----

  function Pnls(history: seq<Trade>): seq<real> {
    seq(|history|, i requires 0 <= i < |history| => history[i].pnl)
  }

  function Wins(history: seq<Trade>): nat {
    if history == [] then 0
    else Wins(history[..|history| - 1]) + if history[|history| - 1].pnl > 0.0 then 1 else 0
  }

  /** The figures are what the history says they are. */
  ghost predicate StatsRefine(st: Stats, cap: nat) {
    && st.closes == |st.history|
    && st.wins == Wins(st.history)
    && st.wins + st.losses == st.closes
    && st.totalPnl == Sum(Pnls(st.history))
    && st.trades == LastN(st.history, cap)
  }

  ghost predicate KeysMatch(positions: map<Key, VirtualPosition>) {
    forall k :: k in positions ==> Key(positions[k].symbol, positions[k].timeframe, positions[k].side) == k
  }

  /** No symbol and timeframe is held on both sides. */
  ghost predicate OneSided(positions: map<Key, VirtualPosition>) {
    forall k :: k in positions ==> Opposite(k) !in positions
  }

  ghost predicate Inv(s: Ledger) {
    && s.entries == s.all.closes + |s.positions|
    && StatsRefine(s.all, 5000) && StatsRefine(s.live, 2000)
    && KeysMatch(s.positions) && OneSided(s.positions)
    && s.liveEntries == s.live.closes + |s.liveKeys| + s.remarks
  }

  lemma BookRefines(st: Stats, tr: Trade, cap: nat)
    requires StatsRefine(st, cap) && 0 < cap
    ensures StatsRefine(Book(st, tr, cap), cap)
  {
    assert (st.history + [tr])[..|st.history|] == st.history;
    assert Pnls(st.history + [tr]) == Pnls(st.history) + [tr.pnl];
    SumSnoc(Pnls(st.history), tr.pnl);
    LastNSnoc(st.history, cap, tr);
  }

  lemma CloseKeeps(s: Ledger, k: Key, exitPrice: real, reason: Reason)
    requires Inv(s) && k in s.positions
    ensures Inv(CloseAt(s, k, exitPrice, reason))
    ensures k !in CloseAt(s, k, exitPrice, reason).positions
  {
    hide StatsRefine, Book, TradeOf, KeysMatch, OneSided;
    var tr := TradeOf(s.positions[k], exitPrice, reason);
    RemovalKeepsSides(s.positions, k);
    OneFewer(s.positions, k);
    BookRefines(s.all, tr, MAX_TRADES);
    BookRefines(s.live, tr, MAX_LIVE_TRADES);
    BookCounts(s.all, tr, MAX_TRADES);
    BookCounts(s.live, tr, MAX_LIVE_TRADES);
  }

  lemma RemovalKeepsSides(positions: map<Key, VirtualPosition>, k: Key)
    requires KeysMatch(positions) && OneSided(positions)
    ensures KeysMatch(positions - {k}) && OneSided(positions - {k})
  {
  }

  lemma OneFewer(positions: map<Key, VirtualPosition>, k: Key)
    requires k in positions
    ensures |positions - {k}| == |positions| - 1
  {
    assert (positions - {k}).Keys == positions.Keys - {k};
    assert |positions.Keys - {k}| == |positions| - 1;
  }

  lemma BookCounts(st: Stats, tr: Trade, cap: nat)
    ensures Book(st, tr, cap).closes == st.closes + 1
  {
  }

  lemma CloseRemoves(s: Ledger, k: Key, exitPrice: real, reason: Reason)
    requires k in s.positions
    ensures CloseAt(s, k, exitPrice, reason).positions == s.positions - {k}
  {
  }

  lemma OpenKeeps(s: Ledger, sig: Signal)
    requires Inv(s) && KeyOf(sig) !in s.positions && Opposite(KeyOf(sig)) !in s.positions
    ensures Inv(Open(s, sig))
  {
    hide StatsRefine;
    assert KeysMatch(Open(s, sig).positions);
    assert OneSided(Open(s, sig).positions);
  }

  lemma TrackEntryKeeps(s: Ledger, sig: Signal)
    requires Inv(s)
    ensures Inv(TrackEntry(s, sig))
  {
    var k := KeyOf(sig);
    if k !in s.positions {
      hide Inv, CloseAt, Open, KeyOf;
      if Opposite(k) in s.positions {
        CloseKeeps(s, Opposite(k), sig.price, Reversal);
        CloseRemoves(s, Opposite(k), sig.price, Reversal);
        OpenKeeps(CloseAt(s, Opposite(k), sig.price, Reversal), sig);
      } else {
        OpenKeeps(s, sig);
      }
    }
  }

  /** An entry always ends holding exactly its side; a reversal costs one close, booked under the old side. */
  lemma EntryHoldsItsSide(s: Ledger, sig: Signal)
    requires Inv(s)
    ensures var t := TrackEntry(s, sig);
            && KeyOf(sig) in t.positions && Opposite(KeyOf(sig)) !in t.positions
            && (forall k :: k != KeyOf(sig) && k != Opposite(KeyOf(sig)) ==>
                              (k in t.positions <==> k in s.positions) &&
                              (k in s.positions ==> t.positions[k] == s.positions[k]))
            && t.all.closes - s.all.closes == (if Opposite(KeyOf(sig)) in s.positions then 1 else 0)
            && (Opposite(KeyOf(sig)) in s.positions ==>
                  t.all.history == s.all.history + [TradeOf(s.positions[Opposite(KeyOf(sig))], sig.price, Reversal)])
  {
    hide TradeOf, StatsRefine;
  }

  lemma MarkKeeps(s: Ledger, key: Key, t: Ledger)
    requires Inv(s) && Next(s, MarkLiveEquivalent(key), t)
    ensures Inv(t)
  {
    hide StatsRefine, KeysMatch, OneSided, TrackEntry, TrackExit;
    if key in s.liveKeys {
      assert s.liveKeys + {key} == s.liveKeys;
    } else {
      assert |s.liveKeys + {key}| == |s.liveKeys| + 1;
    }
  }

  lemma NextKeeps(s: Ledger, ev: Event, t: Ledger)
    requires Inv(s) && Next(s, ev, t)
    ensures Inv(t)
  {
    hide StatsRefine, CloseAt, TrackEntry, Inv;
    match ev
    case MarkLiveEquivalent(key) => MarkKeeps(s, key, t);
    case Track(sig) =>
      if sig.kind.Entry? || sig.kind.ReEntry? {
        TrackEntryKeeps(s, sig);
      } else if t != s {
        var reason := if sig.kind.TP? then TakeProfit else StopLoss;
        if KeyOf(sig) in s.positions {
          CloseKeeps(s, KeyOf(sig), sig.price, reason);
        } else {
          var k :| Matches(s, k, sig) && t == CloseAt(s, k, sig.price, reason);
          CloseKeeps(s, k, sig.price, reason);
        }
      }
  }

  const FRESH_STATS := Stats(0, 0, 0, 0.0, [], [])
  const FRESH := Ledger(map[], 0, FRESH_STATS, {}, 0, 0, FRESH_STATS)

  ghost predicate IsRun(states: seq<Ledger>, events: seq<Event>) {
    && |states| == |events| + 1
    && forall i :: 0 <= i < |events| ==> Next(states[i], events[i], states[i + 1])
  }

  /** In every state of every run from a fresh tracker, all figures agree with the full history. */
  lemma {:induction false} EveryRunRefinesHistory(states: seq<Ledger>, events: seq<Event>, i: nat)
    requires IsRun(states, events) && states[0] == FRESH && i < |states|
    ensures Inv(states[i])
  {
    hide Inv, Next;
    if i == 0 {
      FreshHolds();
    } else {
      EveryRunRefinesHistory(states, events, i - 1);
      assert Next(states[i - 1], events[i - 1], states[i - 1 + 1]);
      NextKeeps(states[i - 1], events[i - 1], states[i]);
    }
  }

  // ---- What each signal does, in the signal's own terms ----

  /** Signals of the futures market that name a symbol; all others are ignored. */
  predicate Followed(sig: Signal) {
    sig.marketType != "spot" && sig.symbol != ""
  }

  function TfOf(sig: Signal): string {
    if sig.timeframe == "" then "0" else sig.timeframe
  }

  /** The record of closing `vp`: 100 of notional, the move in the position's direction, 0.06% on both prices. */
  ghost predicate Accounts(tr: Trade, vp: VirtualPosition, exitPrice: real, reason: Reason) {
    var move := if vp.side.Long? then exitPrice - vp.entryPrice else vp.entryPrice - exitPrice;
    && tr.symbol == vp.symbol && tr.timeframe == vp.timeframe && tr.side == vp.side && tr.strategy == vp.strategy
    && tr.reason == reason && tr.entryPrice == vp.entryPrice && tr.exitPrice == exitPrice
    && (if vp.entryPrice > 0.0 then tr.quantity * vp.entryPrice == 100.0 else tr.quantity == 0.0)
    && tr.grossPnl == move * tr.quantity
    && tr.fee == 0.0006 * (vp.entryPrice + exitPrice) * tr.quantity
    && tr.pnl == tr.grossPnl - tr.fee
  }

  /** Its ratio is the profit per unit of what the stop would have cost, or of the notional without a stop. */
  ghost predicate Rewards(tr: Trade, vp: VirtualPosition) {
    var distance := if vp.entryPrice < vp.slPrice then vp.slPrice - vp.entryPrice else vp.entryPrice - vp.slPrice;
    var risk := if vp.slPrice > 0.0 then distance * tr.quantity else 100.0;
    && (vp.entryPrice > 0.0 && risk > 0.0001 ==> tr.realizedRr * risk == tr.pnl)
    && (vp.entryPrice <= 0.0 || risk <= 0.0001 ==> tr.realizedRr == 0.0)
  }

  /** The history gains just one record, that of closing `vp`. */
  ghost predicate Gains(before: seq<Trade>, after: seq<Trade>, vp: VirtualPosition, exitPrice: real, reason: Reason) {
    && |after| == |before| + 1 && after[..|before|] == before
    && Accounts(after[|before|], vp, exitPrice, reason) && Rewards(after[|before|], vp)
  }

  /** The books gain one record for the position under `k`, among the live-equivalent ones if it was marked. */
  ghost predicate Closes(s: Ledger, t: Ledger, k: Key, exitPrice: real, reason: Reason)
    requires k in s.positions
  {
    && Gains(s.all.history, t.all.history, s.positions[k], exitPrice, reason)
    && t.liveKeys == s.liveKeys - {k} && t.liveEntries == s.liveEntries && t.remarks == s.remarks
    && (if k in s.liveKeys
        then t.live.history == s.live.history + [t.all.history[|s.all.history|]]
        else t.live == s.live)
  }

  lemma RecordAccounts(vp: VirtualPosition, exitPrice: real, reason: Reason)
    ensures Accounts(TradeOf(vp, exitPrice, reason), vp, exitPrice, reason)
  {
    hide Rewards;
    assert vp.entryPrice > 0.0 ==> Quantity(vp.entryPrice) * vp.entryPrice == 100.0;
    FeeSplits(vp, exitPrice);
    GrossIsMove(vp, exitPrice);
    hide Quantity, GrossPnl, Fee, RealizedRr;
  }

  lemma RecordRewards(vp: VirtualPosition, exitPrice: real, reason: Reason)
    ensures Rewards(TradeOf(vp, exitPrice, reason), vp)
  {
    if vp.entryPrice > 0.0 {
      AtRiskIs(vp);
    }
    hide Quantity, AtRisk, NetPnl, GrossPnl, Fee, Ratio;
    RatioTimes(NetPnl(vp, exitPrice), AtRisk(vp));
  }

  lemma AtRiskIs(vp: VirtualPosition)
    requires vp.entryPrice > 0.0
    ensures var distance :=
              if vp.entryPrice < vp.slPrice then vp.slPrice - vp.entryPrice else vp.entryPrice - vp.slPrice;
            AtRisk(vp) == if vp.slPrice > 0.0 then distance * Quantity(vp.entryPrice) else 100.0
  {
    WholeNotional(vp);
    hide Quantity, EntryNotional;
  }

  lemma WholeNotional(vp: VirtualPosition)
    requires vp.entryPrice > 0.0
    ensures EntryNotional(vp) == 100.0
  {
  }

  lemma RatioTimes(pnl: real, base: real)
    ensures if base > 0.0001 then Ratio(pnl, base) * base == pnl else Ratio(pnl, base) == 0.0
  {
  }

  lemma FeeSplits(vp: VirtualPosition, exitPrice: real)
    ensures Fee(vp, exitPrice) == 0.0006 * (vp.entryPrice + exitPrice) * Quantity(vp.entryPrice)
  {
    hide Quantity;
  }

  lemma GrossIsMove(vp: VirtualPosition, exitPrice: real)
    ensures GrossPnl(vp, exitPrice) ==
            (if vp.side.Long? then exitPrice - vp.entryPrice else vp.entryPrice - exitPrice) * Quantity(vp.entryPrice)
  {
    hide Quantity;
  }

  lemma CloseAccounts(s: Ledger, k: Key, exitPrice: real, reason: Reason)
    requires k in s.positions && KeysMatch(s.positions)
    ensures var t := CloseAt(s, k, exitPrice, reason);
            Closes(s, t, k, exitPrice, reason) && t.positions == s.positions - {k} && t.entries == s.entries
  {
    RecordAccounts(s.positions[k], exitPrice, reason);
    RecordRewards(s.positions[k], exitPrice, reason);
    hide Accounts, Rewards, TradeOf, LastN;
  }

  /**
   A TP or SL closes a position of its symbol and side, its own key if that is held, and only when
   none is held leaves everything as it is. A bullish one is for longs, any other for shorts.
   */
  lemma ExitsClose(s: Ledger, sig: Signal, t: Ledger)
    requires KeysMatch(s.positions) && Next(s, Track(sig), t) && Followed(sig) && (sig.kind.TP? || sig.kind.SL?)
    ensures var side := if sig.direction == "bull" then Long else Short;
            var own := Key(sig.symbol, TfOf(sig), side);
            && (t == s <==> forall k :: k in s.positions ==> k.symbol != sig.symbol || k.side != side)
            && (t != s ==>
                  exists k :: k in s.positions && k.symbol == sig.symbol && k.side == side
                              && (own in s.positions ==> k == own)
                              && t.positions == s.positions - {k} && t.entries == s.entries
                              && Closes(s, t, k, sig.price, if sig.kind.TP? then TakeProfit else StopLoss))
  {
    var side := if sig.direction == "bull" then Long else Short;
    var reason := if sig.kind.TP? then TakeProfit else StopLoss;
    assert KeyOf(sig) == Key(sig.symbol, TfOf(sig), side);
    assert forall k :: k in s.positions ==> (Matches(s, k, sig) <==> k.symbol == sig.symbol && k.side == side);
    hide CloseAt, Closes;
    if KeyOf(sig) in s.positions {
      CloseAccounts(s, KeyOf(sig), sig.price, reason);
      ClosingChanges(s, t, KeyOf(sig), sig.price, reason);
    } else if exists k :: Matches(s, k, sig) {
      var k :| Matches(s, k, sig) && t == CloseAt(s, k, sig.price, reason);
      CloseAccounts(s, k, sig.price, reason);
      ClosingChanges(s, t, k, sig.price, reason);
    }
  }

  lemma ClosingChanges(s: Ledger, t: Ledger, k: Key, exitPrice: real, reason: Reason)
    requires k in s.positions && Closes(s, t, k, exitPrice, reason)
    ensures t != s
  {
    hide Accounts, Rewards;
  }

  /**
   An entry is ignored when its own key is held. Otherwise it opens what the signal says under that
   key, and books a reversal of the other side if that was held. Only "buy" opens a long.
   */
  lemma EntriesOpen(s: Ledger, sig: Signal, t: Ledger)
    requires KeysMatch(s.positions) && Next(s, Track(sig), t) && Followed(sig) && (sig.kind.Entry? || sig.kind.ReEntry?)
    ensures var side := if sig.action == "buy" then Long else Short;
            var own, other := Key(sig.symbol, TfOf(sig), side),
                              Key(sig.symbol, TfOf(sig), if sig.action == "buy" then Short else Long);
            && (t == s <==> own in s.positions)
            && (own !in s.positions ==>
                  && t.positions == (s.positions - {other})[own := VirtualPosition(sig.symbol, TfOf(sig), side,
                                                                                   sig.strategy, sig.price, sig.sl,
                                                                                   sig.tp1)]
                  && t.entries == s.entries + 1
                  && if other in s.positions then Closes(s, t, other, sig.price, Reversal)
                     else t == s.(positions := t.positions, entries := t.entries))
  {
    var k := KeyOf(sig);
    assert t == TrackEntry(s, sig);
    if k !in s.positions && Opposite(k) in s.positions {
      CloseAccounts(s, Opposite(k), sig.price, Reversal);
      assert t == Open(CloseAt(s, Opposite(k), sig.price, Reversal), sig);
    } else if k !in s.positions {
      assert s.positions - {Opposite(k)} == s.positions;
    }
    hide CloseAt, Accounts, Rewards;
  }

  /** Everything else changes nothing, and a mark only what is pending. */
  lemma OthersIgnored(s: Ledger, sig: Signal, t: Ledger)
    requires Next(s, Track(sig), t) && (!Followed(sig) || sig.kind.Unknown?)
    ensures t == s
  {
  }

  // ---- When a mark is settled ----

  /** The engine's word for a missing timeframe; the tracker's own is "0". */
  const UNKNOWN_TF := "unknown"

  /** The mark the engine makes for an entry that passed its whole pipeline. */
  function MarkOf(sig: Signal): Key {
    Key(sig.symbol, if sig.timeframe == "" then UNKNOWN_TF else sig.timeframe, DirToSide(sig))
  }

  lemma MarkNamesThePositionIff(sig: Signal)
    requires sig.timeframe != UNKNOWN_TF
    ensures MarkOf(sig) == KeyOf(sig) <==> sig.timeframe != ""
  {
    assert UNKNOWN_TF[0] != "0"[0];
  }

  /** A position that goes in a step was closed in it, and takes its own mark along but no other. */
  lemma GoneMeansClosed(s: Ledger, ev: Event, t: Ledger, k: Key)
    requires Inv(s) && Next(s, ev, t) && k in s.positions && k !in t.positions
    ensures t.liveKeys == s.liveKeys - {k}
  {
    hide Book, TradeOf, StatsRefine;
    match ev
    case MarkLiveEquivalent(_) =>
    case Track(sig) =>
      if !sig.kind.Entry? && !sig.kind.ReEntry? {
        var reason := if sig.kind.TP? then TakeProfit else StopLoss;
        var c :| c in s.positions && t == CloseAt(s, c, sig.price, reason);
        CloseRemoves(s, c, sig.price, reason);
        assert t.positions == s.positions - {c};
        assert c == k;
      }
  }

  ghost predicate NoSuchTimeframe(s: Ledger) {
    KeysMatch(s.positions) && forall k :: k in s.positions ==> k.timeframe != UNKNOWN_TF
  }

  predicate SignalAside(ev: Event) {
    ev.Track? ==> ev.sig.timeframe != UNKNOWN_TF
  }

  lemma CloseLeavesUnknown(s: Ledger, k: Key, exitPrice: real, reason: Reason, key: Key)
    requires NoSuchTimeframe(s) && k in s.positions && key.timeframe == UNKNOWN_TF
    ensures NoSuchTimeframe(CloseAt(s, k, exitPrice, reason))
    ensures key in s.liveKeys ==> key in CloseAt(s, k, exitPrice, reason).liveKeys
  {
    hide Book, TradeOf;
  }

  lemma UnknownStep(s: Ledger, ev: Event, t: Ledger, key: Key)
    requires NoSuchTimeframe(s) && Next(s, ev, t) && SignalAside(ev) && key.timeframe == UNKNOWN_TF
    ensures NoSuchTimeframe(t) && (key in s.liveKeys ==> key in t.liveKeys)
  {
    hide CloseAt;
    match ev
    case MarkLiveEquivalent(_) =>
    case Track(sig) =>
      assert KeyOf(sig).timeframe != UNKNOWN_TF;
      if sig.kind.Entry? || sig.kind.ReEntry? {
        if Opposite(KeyOf(sig)) in s.positions {
          CloseLeavesUnknown(s, Opposite(KeyOf(sig)), sig.price, Reversal, key);
        }
      } else if t != s {
        var reason := if sig.kind.TP? then TakeProfit else StopLoss;
        var k :| k in s.positions && t == CloseAt(s, k, sig.price, reason);
        CloseLeavesUnknown(s, k, sig.price, reason, key);
      }
  }

  /**
   A mark made for a signal without a timeframe names the timeframe "unknown", under which the
   tracker files nothing, so it stays pending for the rest of every run.
   */
  lemma {:induction false} UnknownMarkStays(states: seq<Ledger>, events: seq<Event>, i: nat, j: nat, key: Key)
    requires IsRun(states, events) && states[0] == FRESH && i <= j < |states|
    requires forall n :: 0 <= n < |events| ==> SignalAside(events[n])
    requires key.timeframe == UNKNOWN_TF && key in states[i].liveKeys
    ensures key in states[j].liveKeys
  {
    hide Next, UNKNOWN_TF, NoSuchTimeframe, SignalAside;
    if i < j {
      UnknownMarkStays(states, events, i, j - 1, key);
      NeverUnknown(states, events, j - 1);
      assert Next(states[j - 1], events[j - 1], states[j - 1 + 1]);
      UnknownStep(states[j - 1], events[j - 1], states[j], key);
    }
  }

  /**
   The mark of a signal is settled when the signal's position goes if and only if the signal has a
   timeframe, in every run whose signals do not themselves name "unknown".
   */
  lemma MarkSettledIff(states: seq<Ledger>, events: seq<Event>, i: nat, j: nat, sig: Signal)
    requires IsRun(states, events) && states[0] == FRESH && i <= j < |events|
    requires forall n :: 0 <= n < |events| ==> SignalAside(events[n])
    requires sig.timeframe != UNKNOWN_TF && MarkOf(sig) in states[i].liveKeys
    requires KeyOf(sig) in states[j].positions && KeyOf(sig) !in states[j + 1].positions
    ensures MarkOf(sig) !in states[j + 1].liveKeys <==> sig.timeframe != ""
  {
    MarkNamesThePositionIff(sig);
    if sig.timeframe == "" {
      assert MarkOf(sig).timeframe == UNKNOWN_TF;
      UnknownMarkStays(states, events, i, j + 1, MarkOf(sig));
    } else {
      EveryRunRefinesHistory(states, events, j);
      hide Inv, Next, KeyOf, MarkOf;
      assert Next(states[j], events[j], states[j + 1]);
      GoneMeansClosed(states[j], events[j], states[j + 1], KeyOf(sig));
    }
  }

  /** In a single step the same holds of a pending mark whatever other signals name. */
  lemma StepSettlesIff(s: Ledger, ev: Event, t: Ledger, sig: Signal)
    requires Inv(s) && Next(s, ev, t) && sig.timeframe != UNKNOWN_TF && MarkOf(sig) in s.liveKeys
    requires KeyOf(sig) in s.positions && KeyOf(sig) !in t.positions
    ensures MarkOf(sig) !in t.liveKeys <==> sig.timeframe != ""
  {
    MarkNamesThePositionIff(sig);
    hide Inv, Next, KeyOf, MarkOf;
    GoneMeansClosed(s, ev, t, KeyOf(sig));
  }

  const BARE_ENTRY := Signal(Entry, "A", "", "futures", "buy", "bull", 1.0, 0.0, 0.0, "s")
  const BARE_STOP := Signal(SL, "A", "", "futures", "", "bull", 1.0, 0.0, 0.0, "s")

  /** An entry without a timeframe, its mark and its stop: closed, and the mark still pending. */
  lemma PendingAfterItsClose() returns (states: seq<Ledger>)
    ensures IsRun(states, [Track(BARE_ENTRY), MarkLiveEquivalent(MarkOf(BARE_ENTRY)), Track(BARE_STOP)])
    ensures states[0] == FRESH
    ensures states[3].positions == map[] && states[3].all.closes == 1 && states[3].live.closes == 0
    ensures MarkOf(BARE_ENTRY) in states[3].liveKeys
  {
    var k := KeyOf(BARE_ENTRY);
    MarkNamesThePositionIff(BARE_ENTRY);
    assert k == Key("A", "0", Long) == KeyOf(BARE_STOP);
    var s1 := TrackEntry(FRESH, BARE_ENTRY);
    assert s1.positions == map[k := PositionOf(BARE_ENTRY)] && s1.liveKeys == {};
    var s2 := s1.(liveKeys := {MarkOf(BARE_ENTRY)}, liveEntries := 1);
    var s3 := CloseAt(s2, k, 1.0, StopLoss);
    hide Book, TradeOf;
    BookCounts(s2.all, TradeOf(PositionOf(BARE_ENTRY), 1.0, StopLoss), MAX_TRADES);
    states := [FRESH, s1, s2, s3];
    assert Next(FRESH, Track(BARE_ENTRY), s1);
    assert Next(s1, MarkLiveEquivalent(MarkOf(BARE_ENTRY)), s2);
    assert Next(s2, Track(BARE_STOP), s3);
  }

  lemma {:induction false} NeverUnknown(states: seq<Ledger>, events: seq<Event>, i: nat)
    requires IsRun(states, events) && states[0] == FRESH && i < |states|
    requires forall n :: 0 <= n < |events| ==> SignalAside(events[n])
    ensures NoSuchTimeframe(states[i])
  {
    hide Next, SignalAside;
    if i > 0 {
      NeverUnknown(states, events, i - 1);
      assert Next(states[i - 1], events[i - 1], states[i - 1 + 1]);
      UnknownStep(states[i - 1], events[i - 1], states[i], Key("", UNKNOWN_TF, Long));
    }
  }

  lemma FreshHolds()
    ensures Inv(FRESH)
  {
  }

  // ---- The tracker ----

  class ShadowTracker {
    var positions: map<Key, VirtualPosition>
    var trades: seq<Trade>
    var totalEntries: nat
    var totalCloses: nat
    var wins: nat
    var losses: nat
    var totalPnl: real
    var liveKeys: set<Key>
    var liveEntries: nat
    var liveCloses: nat
    var liveWins: nat
    var liveLosses: nat
    var liveTotalPnl: real
    var liveTrades: seq<Trade>
    ghost var remarks: nat
    ghost var history: seq<Trade>
    ghost var liveHistory: seq<Trade>

    ghost function Abs(): Ledger
      reads this
    {
      Ledger(positions, totalEntries,
             Stats(totalCloses, wins, losses, totalPnl, trades, history),
             liveKeys, liveEntries, remarks,
             Stats(liveCloses, liveWins, liveLosses, liveTotalPnl, liveTrades, liveHistory))
    }

    constructor ()
      ensures Abs() == FRESH
    {
      positions, trades, totalEntries, totalCloses := map[], [], 0, 0;
      wins, losses, totalPnl := 0, 0, 0.0;
      liveKeys, liveEntries, liveCloses, liveWins, liveLosses := {}, 0, 0, 0, 0;
      liveTotalPnl, liveTrades := 0.0, [];
      remarks, history, liveHistory := 0, [], [];
    }

    method MarkLiveEquivalentKey(key: Key)
      modifies this
      ensures Next(old(Abs()), MarkLiveEquivalent(key), Abs())
    {
      remarks := if key in liveKeys then remarks + 1 else remarks;
      liveKeys := liveKeys + {key};
      liveEntries := liveEntries + 1;
    }

    method TrackSignal(sig: Signal)
      modifies this
      ensures Next(old(Abs()), Track(sig), Abs())
    {
      if sig.marketType == "spot" || sig.symbol == "" {
        return;
      }
      match sig.kind
      case Entry => EnterVirtually(sig);
      case ReEntry => EnterVirtually(sig);
      case TP => ExitVirtually(sig, TakeProfit);
      case SL => ExitVirtually(sig, StopLoss);
      case Unknown =>
    }

    method EnterVirtually(sig: Signal)
      modifies this
      ensures Abs() == TrackEntry(old(Abs()), sig)
    {
      var key := KeyOf(sig);
      if key in positions {
        return;
      }
      var opposite := Opposite(key);
      if opposite in positions {
        ClosePosition(opposite, sig.price, Reversal);
      }
      positions := positions[key := PositionOf(sig)];
      totalEntries := totalEntries + 1;
    }

    method ExitVirtually(sig: Signal, reason: Reason)
      modifies this
      ensures TrackExit(old(Abs()), sig, reason, Abs())
    {
      var key := KeyOf(sig);
      if key !in positions {
        var found := FindBySymbolSide(sig);
        if found.None? {
          return;
        }
        key := found.value;
      }
      ClosePosition(key, sig.price, reason);
    }

    /** Some position of the symbol and side, whatever its timeframe. */
    method FindBySymbolSide(sig: Signal) returns (found: Option<Key>)
      ensures found.Some? ==> Matches(Abs(), found.value, sig)
      ensures found.None? ==> forall k :: !Matches(Abs(), k, sig)
    {
      var todo := positions.Keys;
      while todo != {}
        invariant todo <= positions.Keys
        invariant forall k :: k in positions && k !in todo ==> !Matches(Abs(), k, sig)
        decreases |todo|
      {
        var k :| k in todo;
        if positions[k].symbol == sig.symbol && positions[k].side == DirToSide(sig) {
          return Some(k);
        }
        todo := todo - {k};
      }
      return None;
    }

    method ClosePosition(key: Key, exitPrice: real, reason: Reason)
      requires key in positions
      modifies this
      ensures Abs() == CloseAt(old(Abs()), key, exitPrice, reason)
    {
      hide TradeOf, Book;
      var vp := positions[key];
      var tr := TradeOf(vp, exitPrice, reason);
      RecordTrade(tr);
      var posKey := Key(vp.symbol, vp.timeframe, vp.side);
      if posKey in liveKeys {
        RecordLive(tr);
        liveKeys := liveKeys - {posKey};
      }
      positions := positions - {key};
    }

    method RecordTrade(tr: Trade)
      modifies `wins, `losses, `totalPnl, `totalCloses, `trades, `history
      ensures Abs() == old(Abs()).(all := Book(old(Abs()).all, tr, MAX_TRADES))
    {
      hide LastN;
      Tally(tr);
      trades := Capped(trades, tr, MAX_TRADES);
      history := history + [tr];
    }

    method Tally(tr: Trade)
      modifies `wins, `losses, `totalPnl, `totalCloses
      ensures tr.pnl > 0.0 ==> wins == old(wins) + 1 && losses == old(losses)
      ensures tr.pnl <= 0.0 ==> wins == old(wins) && losses == old(losses) + 1
      ensures totalPnl == old(totalPnl) + tr.pnl && totalCloses == old(totalCloses) + 1
    {
      if tr.pnl > 0.0 {
        wins := wins + 1;
      } else {
        losses := losses + 1;
      }
      totalPnl := totalPnl + tr.pnl;
      totalCloses := totalCloses + 1;
    }

    /** Appends, and drops the oldest trade over the cap. */
    static method Capped(trades: seq<Trade>, tr: Trade, cap: nat) returns (r: seq<Trade>)
      ensures r == LastN(trades + [tr], cap)
    {
      r := trades + [tr];
      if |r| > cap {
        r := r[|r| - cap..];
      }
    }

    method RecordLive(tr: Trade)
      modifies `liveWins, `liveLosses, `liveTotalPnl, `liveCloses, `liveTrades, `liveHistory
      ensures Abs() == old(Abs()).(live := Book(old(Abs()).live, tr, MAX_LIVE_TRADES))
    {
      hide LastN;
      TallyLive(tr);
      liveTrades := Capped(liveTrades, tr, MAX_LIVE_TRADES);
      liveHistory := liveHistory + [tr];
    }

    method TallyLive(tr: Trade)
      modifies `liveWins, `liveLosses, `liveTotalPnl, `liveCloses
      ensures tr.pnl > 0.0 ==> liveWins == old(liveWins) + 1 && liveLosses == old(liveLosses)
      ensures tr.pnl <= 0.0 ==> liveWins == old(liveWins) && liveLosses == old(liveLosses) + 1
      ensures liveTotalPnl == old(liveTotalPnl) + tr.pnl && liveCloses == old(liveCloses) + 1
    {
      if tr.pnl > 0.0 {
        liveWins := liveWins + 1;
      } else {
        liveLosses := liveLosses + 1;
      }
      liveTotalPnl := liveTotalPnl + tr.pnl;
      liveCloses := liveCloses + 1;
    }
  }
}
