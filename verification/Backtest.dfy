/**
 The signal backtester: one position per symbol, partial take-profits measured against the
 initial size, reversals and a forced close at the end; and the one-pass drawdown it reports.
 */
module Backtest {
  import opened FiniteSums

  const CLOSED_BELOW := 0.000_000_000_001

  datatype Params = Params(
    tradeAmount: real, leverage: int, feeRate: real, tp1Ratio: real, tp2Ratio: real, initialBalance: real)

  datatype Signal = Signal(alert: string, symbol: string, price: real, direction: string)
  {
    predicate IsEntry() { alert == "buy" || alert == "sell" }
    predicate IsTp() { alert == "TP1" || alert == "TP2" || alert == "TP3" }
    predicate IsSl() { alert == "sl" || alert == "SL" }
    predicate IsReentry() { alert == "re-entry" || alert == "RE" }
  }

  /** `serial` is the model's name for the opening the position came from. */
  datatype Position = Position(symbol: string, side: string, entryPrice: real, quantity: real, initialQty: real,
                               serial: nat)

  datatype Result = Result(
    serial: nat, symbol: string, side: string, entryPrice: real, exitPrice: real, quantity: real, pnl: real,
    reason: string)

  datatype Opening = Opening(quantity: real, fee: real)

  datatype Sim = Sim(
    balance: real, peak: real, maxDd: real, positions: map<string, Position>,
    results: seq<Result>, equity: seq<real>, openings: seq<Opening>)

  // ---- The steps ----

  function CalcPnl(side: string, entry: real, exit: real, qty: real): real {
    if side == "long" then (exit - entry) * qty else (entry - exit) * qty
  }

  function NetPnl(params: Params, p: Position, exit: real, qty: real): real {
    CalcPnl(p.side, p.entryPrice, exit, qty) - qty * exit * params.feeRate
  }

  function Drawdown(peak: real, equity: real): real {
    if peak > 0.0 then (peak - equity) / peak * 100.0 else 0.0
  }

  function UpdateEquity(s: Sim): Sim {
    var peak := Max(s.peak, s.balance);
    s.(equity := s.equity + [s.balance], peak := peak, maxDd := Max(s.maxDd, Drawdown(peak, s.balance)))
  }

  /** Books a close of `qty`; the position keeps the rest unless it is dust or `whole` is closed. */
  function Settle(params: Params, s: Sim, symbol: string, exit: real, qty: real, whole: bool, reason: string): Sim
    requires symbol in s.positions
  {
    var p := s.positions[symbol];
    var pnl := NetPnl(params, p, exit, qty);
    var left := p.quantity - qty;
    UpdateEquity(s.(
                 balance := s.balance + pnl,
                 results := s.results + [Result(p.serial, p.symbol, p.side, p.entryPrice, exit, qty, pnl, reason)],
                 positions := if whole || left <= CLOSED_BELOW then s.positions - {symbol}
                 else s.positions[symbol := p.(quantity := left)]))
  }

  function ClosePosition(params: Params, s: Sim, symbol: string, exit: real, reason: string): Sim {
    if symbol !in s.positions then s
    else Settle(params, s, symbol, exit, s.positions[symbol].quantity, true, reason)
  }

  function SideOf(alert: string): string {
    if alert == "buy" then "long" else "short"
  }

  /** The size bought for the trade amount, and its entry fee. */
  function OpeningOf(params: Params, price: real): Opening
    requires price > 0.0
  {
    var size := params.tradeAmount / price;
    Opening(size, size * price * params.feeRate)
  }

  function Enter(params: Params, s: Sim, sig: Signal): Sim
    requires sig.price > 0.0 && params.leverage >= 1
  {
    if params.tradeAmount / params.leverage as real > s.balance * 0.95 then s
    else
      var o := OpeningOf(params, sig.price);
      s.(balance := s.balance - o.fee,
      openings := s.openings + [o],
      positions := s.positions[sig.symbol := Position(sig.symbol, SideOf(sig.alert), sig.price, o.quantity,
                                                      o.quantity, |s.openings|)])
  }

  function HandleEntry(params: Params, s: Sim, sig: Signal): Sim
    requires sig.price > 0.0 && params.leverage >= 1
  {
    if sig.symbol in s.positions && s.positions[sig.symbol].side == SideOf(sig.alert) then s
    else Enter(params, ClosePosition(params, s, sig.symbol, sig.price, "REVERSE"), sig)
  }

  function TpQty(params: Params, p: Position, alert: string): real {
    if alert == "TP3" then p.quantity
    else
      var asked := p.initialQty * (if alert == "TP1" then params.tp1Ratio else params.tp2Ratio);
      if asked < p.quantity then asked else p.quantity
  }

  function HandleTp(params: Params, s: Sim, sig: Signal): Sim {
    if sig.symbol !in s.positions || TpQty(params, s.positions[sig.symbol], sig.alert) <= 0.0 then s
    else Settle(params, s, sig.symbol, sig.price, TpQty(params, s.positions[sig.symbol], sig.alert), false, sig.alert)
  }

  function HandleReentry(params: Params, s: Sim, sig: Signal): Sim
    requires sig.price > 0.0 && params.leverage >= 1
  {
    if sig.symbol in s.positions then s
    else HandleEntry(params, s, sig.(alert := if sig.direction == "bull" then "buy" else "sell"))
  }

  function Process(params: Params, s: Sim, sig: Signal): Sim
    requires sig.price > 0.0 && params.leverage >= 1
  {
    if sig.IsEntry() then HandleEntry(params, s, sig)
    else if sig.IsTp() then HandleTp(params, s, sig)
    else if sig.IsSl() then ClosePosition(params, s, sig.symbol, sig.price, "SL")
    else if sig.IsReentry() then HandleReentry(params, s, sig)
    else s
  }

  predicate PricesPositive(signals: seq<Signal>) {
    forall i :: 0 <= i < |signals| ==> signals[i].price > 0.0
  }

  function Fresh(params: Params): Sim {
    Sim(params.initialBalance, params.initialBalance, 0.0, map[], [], [params.initialBalance], [])
  }

  function Replay(params: Params, signals: seq<Signal>): Sim
    requires PricesPositive(signals) && params.leverage >= 1
  {
    if signals == [] then Fresh(params)
    else Process(params, Replay(params, signals[..|signals| - 1]), signals[|signals| - 1])
  }

  /** What is still open expires at its entry price, in the order the symbols are listed. */
  function Expire(params: Params, s: Sim, symbols: seq<string>): Sim {
    if symbols == [] then s
    else
      var t := Expire(params, s, symbols[..|symbols| - 1]);
      var symbol := symbols[|symbols| - 1];
      if symbol in t.positions then ClosePosition(params, t, symbol, t.positions[symbol].entryPrice, "EXPIRE") else t
  }

  // ---- What single steps mean ----

  /** An opening is worth the trade amount at the entry price and pays the fee on it. */
  lemma OpeningIsTradeAmount(params: Params, price: real)
    requires price > 0.0
    ensures OpeningOf(params, price).quantity * price == params.tradeAmount
    ensures OpeningOf(params, price).fee == params.tradeAmount * params.feeRate
  {
  }

  /** A close wins exactly when the move beats the exit fee. */
  lemma WinExactly(params: Params, p: Position, exit: real, qty: real)
    requires qty > 0.0
    ensures NetPnl(params, p, exit, qty) > 0.0 <==>
            if p.side == "long" then exit * (1.0 - params.feeRate) > p.entryPrice
            else p.entryPrice > exit * (1.0 + params.feeRate)
  {
    var edge := (if p.side == "long" then exit - p.entryPrice else p.entryPrice - exit) - exit * params.feeRate;
    assert NetPnl(params, p, exit, qty) == qty * edge;
    SignOfProduct(qty, edge);
  }

  /** TP1, TP2 and TP3 in turn close their configured shares of the initial size, and then the rest. */
  lemma SharesOfInitialSize(params: Params, p: Position)
    requires p.quantity == p.initialQty >= 0.0
    requires 0.0 <= params.tp1Ratio && 0.0 <= params.tp2Ratio && params.tp1Ratio + params.tp2Ratio <= 1.0
    ensures var first := TpQty(params, p, "TP1");
            var p1 := p.(quantity := p.quantity - first);
            var second := TpQty(params, p1, "TP2");
            var p2 := p1.(quantity := p1.quantity - second);
            && first == p.initialQty * params.tp1Ratio
            && second == p.initialQty * params.tp2Ratio
            && TpQty(params, p2, "TP3") == p2.quantity == p.initialQty * (1.0 - params.tp1Ratio - params.tp2Ratio)
  {
    var a, b, q := params.tp1Ratio, params.tp2Ratio, p.initialQty;
    hide TpQty;
    var x, y := q * a, q * b;
    SplitShares(q, a, b, x, y);
    assert p.(quantity := q) == p;
    TpQtyIs(params, p, q);
    assert TpQty(params, p, "TP1") == if x < q then x else q;
    var p1 := p.(quantity := q - x);
    TpQtyIs(params, p, q - x);
    assert TpQty(params, p1, "TP2") == y;
    TpQtyIs(params, p, q - x - y);
    assert p1.(quantity := q - x - y) == p.(quantity := q - x - y);
  }

  lemma TpQtyIs(params: Params, p: Position, left: real)
    ensures var now, asked1, asked2 := p.(quantity := left), p.initialQty * params.tp1Ratio,
                                       p.initialQty * params.tp2Ratio;
            && TpQty(params, now, "TP1") == (if asked1 < left then asked1 else left)
            && TpQty(params, now, "TP2") == (if asked2 < left then asked2 else left)
            && TpQty(params, now, "TP3") == left
  {
    assert "TP1"[2] != "TP2"[2] && "TP3"[2] != "TP1"[2] && "TP3"[2] != "TP2"[2];
  }

  lemma SplitShares(q: real, a: real, b: real, x: real, y: real)
    requires 0.0 <= q && 0.0 <= a && 0.0 <= b && a + b <= 1.0 && x == q * a && y == q * b
    ensures 0.0 <= x && 0.0 <= y && x + y <= q
    ensures q * (1.0 - a - b) == q - x - y
  {
    ProductMonotone(q, a + b, 1.0);
    assert q * (a + b) == q * a + q * b;
  }

  // ---- Conservation ----

  function Pnls(results: seq<Result>): seq<real> {
    seq(|results|, i requires 0 <= i < |results| => results[i].pnl)
  }

  function Fees(openings: seq<Opening>): seq<real> {
    seq(|openings|, i requires 0 <= i < |openings| => openings[i].fee)
  }

  function QtyClosed(results: seq<Result>, serial: nat): real {
    if results == [] then 0.0
    else
      var r := results[|results| - 1];
      QtyClosed(results[..|results| - 1], serial) + if r.serial == serial then r.quantity else 0.0
  }

  ghost predicate Held(s: Sim, serial: nat) {
    exists k :: k in s.positions && s.positions[k].serial == serial
  }

  ghost predicate MoneyConserved(params: Params, s: Sim) {
    s.balance == params.initialBalance + Sum(Pnls(s.results)) - Sum(Fees(s.openings))
  }

  /** Each position knows its opening, and its open and closed quantities make up the initial one. */
  ghost predicate OpenConserved(s: Sim) {
    && (forall k :: k in s.positions ==>
                      var p := s.positions[k];
                      && p.serial < |s.openings| && s.openings[p.serial].quantity == p.initialQty
                      && 0.0 <= p.quantity && QtyClosed(s.results, p.serial) + p.quantity == p.initialQty)
    && (forall j, k :: j in s.positions && k in s.positions && s.positions[j].serial == s.positions[k].serial ==>
                         j == k)
    && (forall i :: 0 <= i < |s.results| ==> s.results[i].serial < |s.openings| && 0.0 <= s.results[i].quantity)
  }

  /** An opening that is gone was closed in full, up to dust. */
  ghost predicate ClosedConserved(s: Sim) {
    forall i :: 0 <= i < |s.openings| && !Held(s, i) ==>
                  0.0 <= s.openings[i].quantity - QtyClosed(s.results, i) <= CLOSED_BELOW
  }

  ghost predicate EquityRefines(s: Sim) {
    s.equity != [] && s.peak == Peak(s.equity) && s.maxDd == MaxDrawdown(s.equity)
  }

  ghost predicate Inv(params: Params, s: Sim) {
    MoneyConserved(params, s) && OpenConserved(s) && ClosedConserved(s) && EquityRefines(s)
  }

  // ---- One-pass drawdown ----

  /** The running maximum of the curve. */
  function Peak(curve: seq<real>): real
    requires curve != []
  {
    if |curve| == 1 then curve[0] else Max(Peak(curve[..|curve| - 1]), curve[|curve| - 1])
  }

  /** The fold the backtester computes while it goes. */
  function MaxDrawdown(curve: seq<real>): real
    requires curve != []
  {
    if |curve| == 1 then 0.0
    else Max(MaxDrawdown(curve[..|curve| - 1]), Drawdown(Peak(curve), curve[|curve| - 1]))
  }

  lemma {:induction false} PeakIsMaximum(curve: seq<real>)
    requires curve != []
    ensures Peak(curve) in curve && forall i :: 0 <= i < |curve| ==> curve[i] <= Peak(curve)
  {
    var n := |curve| - 1;
    if n > 0 {
      PeakIsMaximum(curve[..n]);
      assert Peak(curve[..n]) in curve[..n];
      forall i | 0 <= i < n
        ensures curve[i] <= Peak(curve[..n])
      {
        assert curve[..n][i] == curve[i];
      }
    }
  }

  /** From a higher peak the same low is the deeper fall, unless the low is negative. */
  lemma DeeperFromHigher(a: real, p: real, x: real)
    requires 0.0 < a <= p && 0.0 <= x
    ensures Drawdown(a, x) <= Drawdown(p, x)
  {
    FallAsShare(a, x);
    FallAsShare(p, x);
    QuotientAntitone(x, a, p);
  }

  lemma FallAsShare(p: real, x: real)
    requires 0.0 < p
    ensures Drawdown(p, x) == 100.0 - 100.0 * (x / p)
  {
    var q := x / p;
    assert q * p == x;
    assert p - x == (1.0 - q) * p;
    QuotientIs(p - x, 1.0 - q, p);
  }

  lemma QuotientIs(n: real, r: real, p: real)
    requires 0.0 < p && n == r * p
    ensures n / p == r
  {
    assert (n / p) * p == n;
    Cancel(n / p, r, p);
    Cancel(r, n / p, p);
  }

  lemma QuotientAntitone(x: real, a: real, p: real)
    requires 0.0 < a <= p && 0.0 <= x
    ensures x / p <= x / a
  {
    var q, r := x / p, x / a;
    assert q * p == x && r * a == x;
    assert 0.0 <= r;
    ProductMonotone(r, a, p);
    Cancel(q, r, p);
  }

  lemma Cancel(q: real, r: real, p: real)
    requires 0.0 < p && q * p <= r * p
    ensures q <= r
  {
    assert (r - q) * p >= 0.0;
  }

  /** `fall` is the deepest fall from any positive point of the curve to the same or a later point. */
  ghost predicate IsWorstFall(curve: seq<real>, fall: real) {
    && 0.0 <= fall
    && (forall i, j :: 0 <= i <= j < |curve| && curve[i] > 0.0 ==> Drawdown(curve[i], curve[j]) <= fall)
    && (fall == 0.0 || exists i, j :: 0 <= i <= j < |curve| && curve[i] > 0.0 && Drawdown(curve[i], curve[j]) == fall)
  }

  lemma WorstFallUnique(curve: seq<real>, d: real, e: real)
    requires IsWorstFall(curve, d) && IsWorstFall(curve, e)
    ensures d == e
  {
    hide Drawdown;
  }

  // ---- The worst fall of any curve ----

  /** The lowest positive point. */
  function Low(curve: seq<real>): Option<real> {
    if curve == [] then None
    else
      var low, x := Low(curve[..|curve| - 1]), curve[|curve| - 1];
      if x <= 0.0 then low
      else if low.None? || x < low.value then Some(x)
      else low
  }

  lemma {:induction false} LowIsLowest(curve: seq<real>)
    ensures Low(curve).None? ==> forall i :: 0 <= i < |curve| ==> curve[i] <= 0.0
    ensures Low(curve).Some? ==> 0.0 < Low(curve).value && Low(curve).value in curve
    ensures Low(curve).Some? ==> forall i :: 0 <= i < |curve| && curve[i] > 0.0 ==> Low(curve).value <= curve[i]
  {
    if curve != [] {
      var init := curve[..|curve| - 1];
      LowIsLowest(init);
      assert curve == init + [curve[|curve| - 1]];
    }
  }

  /** The deepest fall to `x` from a positive point of `init`: a negative `x` is measured from the lowest. */
  function FallTo(init: seq<real>, x: real): real
    requires init != []
  {
    if x >= 0.0 then Drawdown(Max(Peak(init), x), x)
    else
      match Low(init)
      case None => 0.0
      case Some(low) => Drawdown(low, x)
  }

  function WorstFall(curve: seq<real>): real
    requires curve != []
  {
    if |curve| == 1 then 0.0
    else Max(WorstFall(curve[..|curve| - 1]), FallTo(curve[..|curve| - 1], curve[|curve| - 1]))
  }

  /** To a negative point the fall is the deeper the lower it starts. */
  lemma DeeperFromLower(low: real, a: real, x: real)
    requires 0.0 < low <= a && x < 0.0
    ensures Drawdown(a, x) <= Drawdown(low, x)
    ensures Drawdown(a, x) == Drawdown(low, x) <==> low == a
    ensures Drawdown(a, x) > 100.0
  {
    FallAsShare(a, x);
    FallAsShare(low, x);
    var q, r := x / a, x / low;
    assert q * a == x && r * low == x;
    NegativeQuotient(q, a, x);
    NegativeQuotient(r, low, x);
    var u, v := -q, -r;
    assert u * a == -x && v * low == -x;
    ProductMonotone(u, low, a);
    assert u * low <= -x;
    assert u * low <= v * low;
    Cancel(u, v, low);
    if q == r {
      assert q * (a - low) == 0.0;
      NoZeroFactor(q, a - low);
    }
  }

  lemma NegativeQuotient(q: real, a: real, x: real)
    requires 0.0 < a && x < 0.0 && q * a == x
    ensures q < 0.0
  {
  }

  lemma NoZeroFactor(q: real, d: real)
    requires q < 0.0 && q * d == 0.0
    ensures d == 0.0
  {
  }

  lemma FallToBounds(init: seq<real>, x: real, i: nat)
    requires i < |init| && init[i] > 0.0
    ensures Drawdown(init[i], x) <= FallTo(init, x)
  {
    PeakIsMaximum(init);
    LowIsLowest(init);
    hide Drawdown, Peak, Low;
    if x >= 0.0 {
      DeeperFromHigher(init[i], Max(Peak(init), x), x);
    } else {
      DeeperFromLower(Low(init).value, init[i], x);
    }
  }

  /** The fall is from some point, or there is none. */
  lemma FallToAttained(init: seq<real>, x: real)
    requires init != []
    ensures FallTo(init, x) <= 0.0 || exists i :: 0 <= i < |init| && init[i] > 0.0 &&
                                                  Drawdown(init[i], x) == FallTo(init, x)
  {
    PeakIsMaximum(init);
    LowIsLowest(init);
    hide Peak, Low;
    if x < 0.0 && Low(init).Some? {
      var i :| 0 <= i < |init| && init[i] == Low(init).value;
      assert Drawdown(init[i], x) == FallTo(init, x);
    } else if x >= 0.0 && x < Peak(init) {
      var i :| 0 <= i < |init| && init[i] == Peak(init);
      assert Drawdown(init[i], x) == FallTo(init, x);
    }
  }

  /** For every curve, negative points included, this fold is the worst fall. */
  lemma {:induction false} WorstFallIsPairMaximum(curve: seq<real>)
    requires curve != []
    ensures IsWorstFall(curve, WorstFall(curve))
  {
    var n := |curve| - 1;
    if n > 0 {
      var init := curve[..n];
      WorstFallIsPairMaximum(init);
      FallToAttained(init, curve[n]);
      forall i | 0 <= i < n && init[i] > 0.0
        ensures Drawdown(init[i], curve[n]) <= FallTo(init, curve[n])
      {
        FallToBounds(init, curve[n], i);
      }
      WorstFallGrows(init, curve[n], WorstFall(init), FallTo(init, curve[n]));
      assert curve == init + [curve[n]];
    }
  }

  lemma WorstFallGrows(init: seq<real>, x: real, before: real, fall: real)
    requires IsWorstFall(init, before)
    requires forall i :: 0 <= i < |init| && init[i] > 0.0 ==> Drawdown(init[i], x) <= fall
    requires fall <= 0.0 || exists i :: 0 <= i < |init| && init[i] > 0.0 && Drawdown(init[i], x) == fall
    ensures IsWorstFall(init + [x], Max(before, fall))
  {
    var curve, n := init + [x], |init|;
    forall i, j | 0 <= i <= j <= n && curve[i] > 0.0
      ensures Drawdown(curve[i], curve[j]) <= Max(before, fall)
    {
      if i == n {
        assert Drawdown(x, x) == 0.0;
      } else if j < n {
        assert Drawdown(init[i], init[j]) <= before;
      }
    }
    if 0.0 < fall && before < fall {
      var i :| 0 <= i < |init| && init[i] > 0.0 && Drawdown(init[i], x) == fall;
      assert Drawdown(curve[i], curve[n]) == fall;
    } else if before != 0.0 {
      var i, j :| 0 <= i <= j < |init| && init[i] > 0.0 && Drawdown(init[i], init[j]) == before;
      assert Drawdown(curve[i], curve[j]) == before;
    }
  }

  // ---- When the reported figure is the worst fall ----

  ghost predicate NeverNegative(curve: seq<real>) {
    forall i :: 0 <= i < |curve| ==> curve[i] >= 0.0
  }

  /** As long as equity is not negative, one pass finds the worst fall, and it is at most 100%. */
  lemma {:induction false} OnePassIsPairMaximum(curve: seq<real>)
    requires curve != [] && NeverNegative(curve)
    ensures MaxDrawdown(curve) == WorstFall(curve) <= 100.0 && IsWorstFall(curve, MaxDrawdown(curve))
  {
    WorstFallIsPairMaximum(curve);
    var n := |curve| - 1;
    if n > 0 {
      OnePassIsPairMaximum(curve[..n]);
      PeakIsMaximum(curve);
      FallAtMostWhole(Peak(curve), curve[n]);
    }
  }

  lemma FallAtMostWhole(p: real, x: real)
    requires 0.0 <= x
    ensures Drawdown(p, x) <= 100.0
  {
    if p > 0.0 {
      FallAsShare(p, x);
      assert (x / p) * p == x;
      Cancel(0.0, x / p, p);
    }
  }

  /** The figure is never larger than the worst fall. */
  lemma {:induction false} OnePassNeverTooLarge(curve: seq<real>)
    requires curve != []
    ensures 0.0 <= MaxDrawdown(curve) <= WorstFall(curve)
  {
    var n := |curve| - 1;
    if n > 0 {
      var init, x := curve[..n], curve[n];
      OnePassNeverTooLarge(init);
      PeakIsMaximum(init);
      if x < 0.0 && Peak(init) > 0.0 {
        var i :| 0 <= i < |init| && init[i] == Peak(init);
        FallToBounds(init, x, i);
      }
    }
  }

  /**
   The next point after a curve that was never negative. The figure is then the worst fall if and
   only if the point is not negative either, or every positive point so far was at the peak.
   */
  lemma ExactAfterNextPointIff(curve: seq<real>, x: real)
    requires curve != [] && NeverNegative(curve)
    ensures IsWorstFall(curve + [x], MaxDrawdown(curve + [x])) <==>
            x >= 0.0 || forall i :: 0 <= i < |curve| && curve[i] > 0.0 ==> curve[i] == Peak(curve)
  {
    var next := curve + [x];
    assert next[..|curve|] == curve;
    WorstFallIsPairMaximum(next);
    OnePassIsPairMaximum(curve);
    if x >= 0.0 {
      OnePassIsPairMaximum(next);
    } else {
      NegativeNextPoint(curve, x);
      if MaxDrawdown(next) != WorstFall(next) && IsWorstFall(next, MaxDrawdown(next)) {
        WorstFallUnique(next, MaxDrawdown(next), WorstFall(next));
      }
    }
  }

  lemma NegativeNextPoint(curve: seq<real>, x: real)
    requires curve != [] && NeverNegative(curve) && x < 0.0
    ensures MaxDrawdown(curve + [x]) == WorstFall(curve + [x]) <==>
            forall i :: 0 <= i < |curve| && curve[i] > 0.0 ==> curve[i] == Peak(curve)
  {
    var next := curve + [x];
    assert next[..|curve|] == curve;
    OnePassIsPairMaximum(curve);
    PeakIsMaximum(curve);
    LowIsLowest(curve);
    if Low(curve).Some? {
      DeeperFromLower(Low(curve).value, Peak(curve), x);
    }
  }

  // ---- A run that misses a fall: a gain, then a leveraged loss of more than the balance ----

  const BROKE := Params(900.0, 10, 0.0, 0.33, 0.33, 100.0)

  function Buy(): Signal { Signal("buy", "A", 1.0, "bull") }

  function Stop(price: real): Signal { Signal("SL", "A", price, "bull") }

  function BrokeSignals(): seq<Signal> { [Buy(), Stop(1.1), Buy(), Stop(0.5)] }

  lemma BuyStep(s: Sim)
    requires s.positions == map[] && s.balance >= 100.0
    ensures Process(BROKE, s, Buy()).balance == s.balance
    ensures var t := Process(BROKE, s, Buy());
            && t == s.(openings := t.openings, positions := t.positions)
            && t.positions == map["A" := Position("A", "long", 1.0, 900.0, 900.0, |s.openings|)]
  {
  }

  lemma StopStep(s: Sim, serial: nat, price: real)
    requires s.positions == map["A" := Position("A", "long", 1.0, 900.0, 900.0, serial)] && price > 0.0
    ensures var t := Process(BROKE, s, Stop(price));
            var b := s.balance + (price - 1.0) * 900.0;
            && t.positions == map[] && t.balance == b && t.equity == s.equity + [b]
            && t.peak == Max(s.peak, b) && t.maxDd == Max(s.maxDd, Drawdown(t.peak, b))
  {
    assert "SL"[0] != "TP1"[0] && "SL" != "TP2" && "SL" != "TP3" && "SL" != "buy" && "SL" != "sell";
  }

  lemma ReplaySnoc(params: Params, signals: seq<Signal>, sig: Signal)
    requires params.leverage >= 1 && PricesPositive(signals) && sig.price > 0.0
    ensures PricesPositive(signals + [sig])
    ensures Replay(params, signals + [sig]) == Process(params, Replay(params, signals), sig)
  {
    assert (signals + [sig])[..|signals|] == signals;
    hide Process;
  }

  lemma GainThenLoss()
    ensures PricesPositive([Buy(), Stop(1.1)])
    ensures var t := Replay(BROKE, [Buy(), Stop(1.1)]);
            && t.positions == map[] && t.balance == 190.0 && t.equity == [100.0, 190.0]
            && t.peak == 190.0 && t.maxDd == 0.0
  {
    hide Process;
    ReplaySnoc(BROKE, [], Buy());
    assert [] + [Buy()] == [Buy()] && [Buy()] + [Stop(1.1)] == [Buy(), Stop(1.1)];
    ReplaySnoc(BROKE, [Buy()], Stop(1.1));
    BuyStep(Fresh(BROKE));
    StopStep(Replay(BROKE, [Buy()]), 0, 1.1);
  }

  /** The backtester reports less than 237% for a run whose equity fell by 360% from its start. */
  lemma ReplayMissesAFall()
    ensures PricesPositive(BrokeSignals())
    ensures var t := Replay(BROKE, BrokeSignals());
            && t.equity == [100.0, 190.0, -260.0]
            && t.maxDd < 237.0 && Drawdown(t.equity[0], t.equity[2]) == 360.0
  {
    hide Process, Replay;
    GainThenLoss();
    var half := [Buy(), Stop(1.1)];
    ReplaySnoc(BROKE, half, Buy());
    ReplaySnoc(BROKE, half + [Buy()], Stop(0.5));
    assert half + [Buy()] + [Stop(0.5)] == BrokeSignals();
    var s2 := Replay(BROKE, half);
    BuyStep(s2);
    StopStep(Process(BROKE, s2, Buy()), |s2.openings|, 0.5);
  }

  // ---- Every step conserves ----

  lemma QtySnoc(results: seq<Result>, r: Result)
    ensures forall i: nat :: QtyClosed(results + [r], i) == QtyClosed(results, i) + if r.serial == i then r.quantity
                                                            else 0.0
  {
    assert (results + [r])[..|results|] == results;
  }

  lemma {:induction false} NoneClosed(results: seq<Result>, serial: nat)
    requires forall i :: 0 <= i < |results| ==> results[i].serial != serial
    ensures QtyClosed(results, serial) == 0.0
  {
    if results != [] {
      NoneClosed(results[..|results| - 1], serial);
    }
  }

  lemma UpdateKeepsEquity(s: Sim)
    requires EquityRefines(s)
    ensures EquityRefines(UpdateEquity(s))
  {
    assert (s.equity + [s.balance])[..|s.equity|] == s.equity;
    hide Drawdown;
  }

  lemma SettleMoney(params: Params, s: Sim, symbol: string, exit: real, qty: real, whole: bool, reason: string)
    requires MoneyConserved(params, s) && symbol in s.positions
    ensures MoneyConserved(params, Settle(params, s, symbol, exit, qty, whole, reason))
  {
    hide NetPnl, Drawdown;
    var t := Settle(params, s, symbol, exit, qty, whole, reason);
    var pnl := NetPnl(params, s.positions[symbol], exit, qty);
    assert Pnls(t.results) == Pnls(s.results) + [pnl];
    SumSnoc(Pnls(s.results), pnl);
  }

  /** What a settlement does to positions, results and openings. */
  lemma SettleShape(params: Params, s: Sim, symbol: string, exit: real, qty: real, whole: bool, reason: string)
    requires symbol in s.positions
    ensures var t := Settle(params, s, symbol, exit, qty, whole, reason);
            var p := s.positions[symbol];
            && t.openings == s.openings
            && t.results == s.results
                            + [Result(p.serial, p.symbol, p.side, p.entryPrice, exit, qty,
                                      NetPnl(params, p, exit, qty), reason)]
            && t.positions == if whole || p.quantity - qty <= CLOSED_BELOW then s.positions - {symbol}
                              else s.positions[symbol := p.(quantity := p.quantity - qty)]
    ensures EquityRefines(s) ==> EquityRefines(Settle(params, s, symbol, exit, qty, whole, reason))
  {
    hide NetPnl, Drawdown;
    var p := s.positions[symbol];
    var booked := s.(
    balance := s.balance + NetPnl(params, p, exit, qty),
    results := s.results
    + [Result(p.serial, p.symbol, p.side, p.entryPrice, exit, qty, NetPnl(params, p, exit, qty), reason)],
    positions := if whole || p.quantity - qty <= CLOSED_BELOW then s.positions - {symbol}
    else s.positions[symbol := p.(quantity := p.quantity - qty)]);
    assert Settle(params, s, symbol, exit, qty, whole, reason) == UpdateEquity(booked);
    if EquityRefines(s) {
      UpdateKeepsEquity(booked);
    }
  }

  lemma HeldAfterRemoval(s: Sim, t: Sim, symbol: string)
    requires symbol in s.positions && t.positions == s.positions - {symbol}
    ensures forall i :: Held(s, i) && i != s.positions[symbol].serial ==> Held(t, i)
  {
    forall i | Held(s, i) && i != s.positions[symbol].serial
      ensures Held(t, i)
    {
      var j :| j in s.positions && s.positions[j].serial == i;
      assert j in t.positions;
    }
  }

  lemma HeldAfterUpdate(s: Sim, t: Sim, symbol: string, p: Position)
    requires t.positions == s.positions[symbol := p]
    requires symbol in s.positions ==> p.serial == s.positions[symbol].serial
    ensures forall i :: Held(s, i) ==> Held(t, i)
    ensures Held(t, p.serial)
  {
    forall i | Held(s, i)
      ensures Held(t, i)
    {
      var j :| j in s.positions && s.positions[j].serial == i;
      assert t.positions[j].serial == i;
    }
    assert t.positions[symbol].serial == p.serial;
  }

  lemma RemovalConserves(s: Sim, t: Sim, symbol: string, r: Result)
    requires OpenConserved(s) && ClosedConserved(s) && symbol in s.positions
    requires t.positions == s.positions - {symbol} && t.results == s.results + [r] && t.openings == s.openings
    requires r.serial == s.positions[symbol].serial &&
             0.0 <= r.quantity <= s.positions[symbol].quantity <= r.quantity + CLOSED_BELOW
    ensures OpenConserved(t) && ClosedConserved(t)
  {
    QtySnoc(s.results, r);
    HeldAfterRemoval(s, t, symbol);
    hide QtyClosed;
    assert OpenConserved(t);
    hide Held;
    assert ClosedConserved(t);
  }

  lemma ShrinkConserves(s: Sim, t: Sim, symbol: string, r: Result)
    requires OpenConserved(s) && ClosedConserved(s) && symbol in s.positions
    requires var p := s.positions[symbol];
             t.positions == s.positions[symbol := p.(quantity := p.quantity - r.quantity)]
             && r.serial == p.serial && 0.0 <= r.quantity <= p.quantity
    requires t.results == s.results + [r] && t.openings == s.openings
    ensures OpenConserved(t) && ClosedConserved(t)
  {
    QtySnoc(s.results, r);
    HeldAfterUpdate(s, t, symbol, s.positions[symbol].(quantity := s.positions[symbol].quantity - r.quantity));
    assert Held(s, r.serial);
    hide QtyClosed;
    assert OpenConserved(t);
    hide Held;
    assert ClosedConserved(t);
  }

  lemma SettleKeeps(params: Params, s: Sim, symbol: string, exit: real, qty: real, whole: bool, reason: string)
    requires Inv(params, s) && symbol in s.positions
    requires 0.0 <= qty <= s.positions[symbol].quantity && (whole ==> qty == s.positions[symbol].quantity)
    ensures Inv(params, Settle(params, s, symbol, exit, qty, whole, reason))
  {
    hide MoneyConserved, OpenConserved, ClosedConserved, EquityRefines, Settle, NetPnl;
    var t := Settle(params, s, symbol, exit, qty, whole, reason);
    var p := s.positions[symbol];
    SettleMoney(params, s, symbol, exit, qty, whole, reason);
    SettleShape(params, s, symbol, exit, qty, whole, reason);
    var r := Result(p.serial, p.symbol, p.side, p.entryPrice, exit, qty, NetPnl(params, p, exit, qty), reason);
    if whole || p.quantity - qty <= CLOSED_BELOW {
      RemovalConserves(s, t, symbol, r);
    } else {
      ShrinkConserves(s, t, symbol, r);
    }
  }

  lemma CloseKeeps(params: Params, s: Sim, symbol: string, exit: real, reason: string)
    requires Inv(params, s)
    ensures Inv(params, ClosePosition(params, s, symbol, exit, reason))
    ensures ClosePosition(params, s, symbol, exit, reason).positions == s.positions - {symbol}
  {
    if symbol in s.positions {
      QuantityNonnegative(s, symbol);
      hide Inv, Settle;
      SettleKeeps(params, s, symbol, exit, s.positions[symbol].quantity, true, reason);
      SettleRemoves(params, s, symbol, exit, reason);
    }
  }

  lemma QuantityNonnegative(s: Sim, symbol: string)
    requires OpenConserved(s) && symbol in s.positions
    ensures 0.0 <= s.positions[symbol].quantity
  {
  }

  lemma SettleRemoves(params: Params, s: Sim, symbol: string, exit: real, reason: string)
    requires symbol in s.positions
    ensures Settle(params, s, symbol, exit, s.positions[symbol].quantity, true, reason).positions ==
            s.positions - {symbol}
  {
  }

  lemma EnterKeeps(params: Params, s: Sim, sig: Signal)
    requires Inv(params, s) && sig.symbol !in s.positions && sig.price > 0.0 && params.leverage >= 1 &&
             params.tradeAmount >= 0.0
    ensures Inv(params, Enter(params, s, sig))
  {
    var t := Enter(params, s, sig);
    var o := OpeningOf(params, sig.price);
    SizeNonnegative(params, sig.price);
    hide OpeningOf, Sum, Peak, MaxDrawdown;
    if t != s {
      EnterMoney(params, s, t, o);
      EnterConserves(s, t, sig.symbol,
                     Position(sig.symbol, SideOf(sig.alert), sig.price, o.quantity, o.quantity, |s.openings|), o);
    }
  }

  lemma SizeNonnegative(params: Params, price: real)
    requires price > 0.0 && params.tradeAmount >= 0.0
    ensures 0.0 <= OpeningOf(params, price).quantity
  {
  }

  lemma EnterMoney(params: Params, s: Sim, t: Sim, o: Opening)
    requires MoneyConserved(params, s) && t.results == s.results
    requires t.openings == s.openings + [o] && t.balance == s.balance - o.fee
    ensures MoneyConserved(params, t)
  {
    assert Fees(t.openings) == Fees(s.openings) + [o.fee];
    SumSnoc(Fees(s.openings), o.fee);
  }

  lemma EnterConserves(s: Sim, t: Sim, symbol: string, p: Position, o: Opening)
    requires OpenConserved(s) && ClosedConserved(s) && symbol !in s.positions
    requires t.results == s.results && t.openings == s.openings + [o] && t.positions == s.positions[symbol := p]
    requires p.serial == |s.openings| && p.quantity == p.initialQty == o.quantity && 0.0 <= p.quantity
    ensures OpenConserved(t) && ClosedConserved(t)
  {
    NoneClosed(s.results, |s.openings|);
    HeldAfterUpdate(s, t, symbol, p);
    hide QtyClosed;
    assert OpenConserved(t);
    hide Held;
    assert ClosedConserved(t);
  }

  lemma ProcessKeeps(params: Params, s: Sim, sig: Signal)
    requires Inv(params, s) && sig.price > 0.0 && params.leverage >= 1 && params.tradeAmount >= 0.0
    ensures Inv(params, Process(params, s, sig))
  {
    hide Inv, ClosePosition, Enter, HandleTp, HandleEntry;
    TpKeeps(params, s, sig);
    CloseKeeps(params, s, sig.symbol, sig.price, "SL");
    EntryKeeps(params, s, sig);
    EntryKeeps(params, s, sig.(alert := if sig.direction == "bull" then "buy" else "sell"));
  }

  lemma TpKeeps(params: Params, s: Sim, sig: Signal)
    requires Inv(params, s)
    ensures Inv(params, HandleTp(params, s, sig))
  {
    if sig.symbol in s.positions {
      var qty := TpQty(params, s.positions[sig.symbol], sig.alert);
      assert qty <= s.positions[sig.symbol].quantity;
      hide Inv, Settle, TpQty;
      if qty > 0.0 {
        SettleKeeps(params, s, sig.symbol, sig.price, qty, false, sig.alert);
      }
    }
  }

  lemma EntryKeeps(params: Params, s: Sim, sig: Signal)
    requires Inv(params, s) && sig.price > 0.0 && params.leverage >= 1 && params.tradeAmount >= 0.0
    ensures Inv(params, HandleEntry(params, s, sig))
  {
    hide Inv, ClosePosition, Enter;
    CloseKeeps(params, s, sig.symbol, sig.price, "REVERSE");
    EnterKeeps(params, ClosePosition(params, s, sig.symbol, sig.price, "REVERSE"), sig);
  }

  lemma {:induction false} ReplayKeeps(params: Params, signals: seq<Signal>)
    requires PricesPositive(signals) && params.leverage >= 1 && params.tradeAmount >= 0.0
    ensures Inv(params, Replay(params, signals))
  {
    if signals == [] {
      assert Peak([params.initialBalance]) == params.initialBalance;
    } else {
      ReplayKeeps(params, signals[..|signals| - 1]);
      hide Inv, Process;
      ProcessKeeps(params, Replay(params, signals[..|signals| - 1]), signals[|signals| - 1]);
    }
  }

  lemma {:induction false} ExpireKeeps(params: Params, s: Sim, symbols: seq<string>)
    requires Inv(params, s)
    ensures Inv(params, Expire(params, s, symbols))
    ensures forall k :: k in Expire(params, s, symbols).positions <==> k in s.positions && k !in symbols
    ensures Expire(params, s, symbols).openings == s.openings
  {
    hide Inv, Settle;
    if symbols != [] {
      var n := |symbols| - 1;
      ExpireKeeps(params, s, symbols[..n]);
      assert symbols == symbols[..n] + [symbols[n]];
      var t := Expire(params, s, symbols[..n]);
      if symbols[n] in t.positions {
        ExpireOneKeeps(params, t, symbols[n], t.positions[symbols[n]].entryPrice);
      }
    }
  }

  lemma ExpireOneKeeps(params: Params, s: Sim, symbol: string, price: real)
    requires Inv(params, s) && symbol in s.positions
    ensures var t := ClosePosition(params, s, symbol, price, "EXPIRE");
            Inv(params, t) && t.positions == s.positions - {symbol} && t.openings == s.openings
  {
    CloseKeeps(params, s, symbol, price, "EXPIRE");
    hide Inv, Settle;
    SettleShape(params, s, symbol, price, s.positions[symbol].quantity, true, "EXPIRE");
  }

  /**
   Conservation over a whole run. Once everything has expired no position is open, the balance is
   the initial one plus all recorded PnL minus all entry fees, and every opening was closed to its
   initial quantity up to the dust threshold.
   */
  lemma RunConserves(params: Params, signals: seq<Signal>, symbols: seq<string>)
    requires PricesPositive(signals) && params.leverage >= 1 && params.tradeAmount >= 0.0
    requires forall k :: k in Replay(params, signals).positions ==> k in symbols
    ensures var t := Expire(params, Replay(params, signals), symbols);
            && t.positions == map[]
            && t.balance == params.initialBalance + Sum(Pnls(t.results)) - Sum(Fees(t.openings))
            && (forall i :: 0 <= i < |t.openings| ==>
                              0.0 <= t.openings[i].quantity - QtyClosed(t.results, i) <= CLOSED_BELOW)
            && t.equity != [] && t.peak == Peak(t.equity) && t.maxDd == MaxDrawdown(t.equity)
  {
    ReplayKeeps(params, signals);
    ExpireKeeps(params, Replay(params, signals), symbols);
    hide Replay, Expire, Peak, MaxDrawdown, Sum, QtyClosed;
    var t := Expire(params, Replay(params, signals), symbols);
    forall i | 0 <= i < |t.openings|
      ensures !Held(t, i)
    {
    }
  }

  // ---- What each signal does, in the signal's own terms ----

  /** The move in the position's direction, less the exit fee. */
  function Profit(params: Params, p: Position, exit: real, qty: real): real {
    var fee := params.feeRate * exit * qty;
    if p.side == "long" then (exit - p.entryPrice) * qty - fee else (p.entryPrice - exit) * qty - fee
  }

  /**
   A close of `qty` at `exit`: one result more, with its profit, and that much more balance, which the curve
   gains as its next point. Positions are not looked at.
   */
  ghost predicate Settles(params: Params, s: Sim, t: Sim, p: Position, qty: real, exit: real, reason: string) {
    var pnl := Profit(params, p, exit, qty);
    && t.results == s.results + [Result(p.serial, p.symbol, p.side, p.entryPrice, exit, qty, pnl, reason)]
    && t.balance == s.balance + pnl && t.equity == s.equity + [t.balance] && t.openings == s.openings
  }

  /** The position of the symbol, if any, is closed whole. */
  ghost predicate Leaves(params: Params, s: Sim, t: Sim, symbol: string, exit: real, reason: string) {
    if symbol in s.positions
    then t.positions == s.positions - {symbol} &&
         Settles(params, s, t, s.positions[symbol], s.positions[symbol].quantity, exit, reason)
    else t == s
  }

  /**
   The symbol is entered on the side: nothing when it is held there already; otherwise what is held is closed
   as a reversal and, unless the margin is over 95% of what the balance is then, the trade amount opened.
   */
  ghost predicate Enters(params: Params, s: Sim, t: Sim, symbol: string, side: string, price: real)
    requires params.leverage >= 1
  {
    if symbol in s.positions && s.positions[symbol].side == side then t == s
    else
      exists c ::
        && Leaves(params, s, c, symbol, price, "REVERSE")
        && if params.tradeAmount / params.leverage as real > 0.95 * c.balance then t == c
           else Opens(params, c, t, symbol, side, price)
  }

  ghost predicate Opens(params: Params, s: Sim, t: Sim, symbol: string, side: string, price: real) {
    && symbol in t.positions
    && var qty := t.positions[symbol].quantity;
    && qty * price == params.tradeAmount
    && t == s.(balance := s.balance - params.feeRate * params.tradeAmount,
            openings := s.openings + [Opening(qty, params.feeRate * params.tradeAmount)],
            positions := s.positions[symbol := Position(symbol, side, price, qty, qty, |s.openings|)])
  }

  /** TP1 and TP2 close their shares of the initial size, as far as that much is left; TP3 closes the rest. */
  function Closing(params: Params, p: Position, alert: string): real {
    if alert == "TP1" then Smaller(params.tp1Ratio * p.initialQty, p.quantity)
    else if alert == "TP2" then Smaller(params.tp2Ratio * p.initialQty, p.quantity)
    else p.quantity
  }

  function Smaller(a: real, b: real): real {
    if a <= b then a else b
  }

  lemma SettleSettles(params: Params, s: Sim, symbol: string, exit: real, qty: real, whole: bool, reason: string)
    requires symbol in s.positions
    ensures Settles(params, s, Settle(params, s, symbol, exit, qty, whole, reason), s.positions[symbol], qty, exit,
                    reason)
  {
    NetPnlIs(params, s.positions[symbol], exit, qty);
    hide Drawdown, NetPnl, Profit;
  }

  lemma NetPnlIs(params: Params, p: Position, exit: real, qty: real)
    ensures NetPnl(params, p, exit, qty) == Profit(params, p, exit, qty)
  {
  }

  lemma CloseLeaves(params: Params, s: Sim, symbol: string, exit: real, reason: string)
    ensures Leaves(params, s, ClosePosition(params, s, symbol, exit, reason), symbol, exit, reason)
  {
    if symbol in s.positions {
      SettleSettles(params, s, symbol, exit, s.positions[symbol].quantity, true, reason);
      SettleRemoves(params, s, symbol, exit, reason);
    }
    hide Settles, Settle;
  }

  lemma HandleEnters(params: Params, s: Sim, sig: Signal, side: string)
    requires sig.price > 0.0 && params.leverage >= 1 && side == SideOf(sig.alert)
    ensures Enters(params, s, HandleEntry(params, s, sig), sig.symbol, side, sig.price)
  {
    var c := ClosePosition(params, s, sig.symbol, sig.price, "REVERSE");
    CloseLeaves(params, s, sig.symbol, sig.price, "REVERSE");
    hide ClosePosition, Leaves, Opens;
    if !(sig.symbol in s.positions && s.positions[sig.symbol].side == side) {
      EnterOpens(params, c, sig, side);
    }
  }

  lemma EnterOpens(params: Params, s: Sim, sig: Signal, side: string)
    requires sig.price > 0.0 && params.leverage >= 1 && side == SideOf(sig.alert)
    ensures var t := Enter(params, s, sig);
            if params.tradeAmount / params.leverage as real > 0.95 * s.balance then t == s
            else Opens(params, s, t, sig.symbol, side, sig.price)
  {
    OpeningIsTradeAmount(params, sig.price);
    hide OpeningOf;
    var t := Enter(params, s, sig);
    if params.tradeAmount / params.leverage as real <= 0.95 * s.balance {
      OpenedOpens(params, s, t, sig.symbol, side, sig.price, OpeningOf(params, sig.price));
    }
  }

  lemma OpenedOpens(params: Params, s: Sim, t: Sim, symbol: string, side: string, price: real, o: Opening)
    requires o.quantity * price == params.tradeAmount && o.fee == params.tradeAmount * params.feeRate
    requires t == s.(balance := s.balance - o.fee, openings := s.openings + [o],
                  positions := s.positions[symbol := Position(symbol, side, price, o.quantity, o.quantity,
                                                              |s.openings|)])
    ensures Opens(params, s, t, symbol, side, price)
  {
    assert o == Opening(o.quantity, params.feeRate * params.tradeAmount);
  }

  /** What each kind of signal does; buys and bullish re-entries are long, sells and other re-entries short. */
  lemma SignalsDo(params: Params, s: Sim, sig: Signal)
    requires sig.price > 0.0 && params.leverage >= 1
    ensures var t := Process(params, s, sig);
            && (sig.alert == "buy" ==> Enters(params, s, t, sig.symbol, "long", sig.price))
            && (sig.alert == "sell" ==> Enters(params, s, t, sig.symbol, "short", sig.price))
            && (sig.alert == "sl" || sig.alert == "SL" ==> Leaves(params, s, t, sig.symbol, sig.price, "SL"))
            && (sig.alert == "re-entry" || sig.alert == "RE" ==>
                  if sig.symbol in s.positions then t == s
                  else Enters(params, s, t, sig.symbol, if sig.direction == "bull" then "long" else "short", sig.price))
            && (sig.alert !in {"buy", "sell", "sl", "SL", "re-entry", "RE", "TP1", "TP2", "TP3"} ==> t == s)
  {
    AlertsDiffer();
    CloseLeaves(params, s, sig.symbol, sig.price, "SL");
    hide ClosePosition, HandleEntry, HandleTp, Enters, Leaves;
    if sig.IsEntry() {
      HandleEnters(params, s, sig, SideOf(sig.alert));
    } else if sig.IsReentry() && sig.symbol !in s.positions {
      var entry := sig.(alert := if sig.direction == "bull" then "buy" else "sell");
      HandleEnters(params, s, entry, SideOf(entry.alert));
    }
  }

  /** The alerts are told apart by their lengths and letters. */
  lemma AlertsDiffer()
    ensures "buy" != "sell" && "buy" != "TP1" && "TP1" != "TP2" && "TP2" != "TP3" && "TP1" != "TP3"
    ensures "sl" != "SL" && "sl" != "RE" && "SL" != "RE"
  {
    assert "buy"[0] != "TP1"[0] && "TP1"[2] != "TP2"[2] && "TP2"[2] != "TP3"[2] && "TP1"[2] != "TP3"[2];
    assert "sl"[0] != "SL"[0] && "sl"[0] != "RE"[0] && "SL"[0] != "RE"[0];
  }

  /**
   A TP closes its share of a position at the signal's price; the position stays with the rest, if
   that is not dust.
   */
  lemma TpsSettle(params: Params, s: Sim, sig: Signal)
    requires sig.price > 0.0 && params.leverage >= 1 && (sig.alert == "TP1" || sig.alert == "TP2" || sig.alert == "TP3")
    ensures var t := Process(params, s, sig);
            if sig.symbol !in s.positions || Closing(params, s.positions[sig.symbol], sig.alert) <= 0.0 then t == s
            else
              var p := s.positions[sig.symbol];
              var qty := Closing(params, p, sig.alert);
              && Settles(params, s, t, p, qty, sig.price, sig.alert)
              && t.positions == if p.quantity - qty <= 0.000_000_000_001 then s.positions - {sig.symbol}
                                else s.positions[sig.symbol := p.(quantity := p.quantity - qty)]
  {
    AlertsDiffer();
    assert "sell"[0] != sig.alert[0] && "buy"[0] != sig.alert[0];
    assert Process(params, s, sig) == HandleTp(params, s, sig);
    if sig.symbol in s.positions {
      ClosingIs(params, s.positions[sig.symbol], sig.alert);
      SettleSettles(params, s, sig.symbol, sig.price, TpQty(params, s.positions[sig.symbol], sig.alert), false,
                    sig.alert);
    }
    hide Settles, Closing, TpQty;
  }

  lemma ClosingIs(params: Params, p: Position, alert: string)
    requires alert == "TP1" || alert == "TP2" || alert == "TP3"
    ensures TpQty(params, p, alert) == Closing(params, p, alert)
  {
    AlertsDiffer();
  }

  /** What is still open at the end leaves at its own entry price, so it costs only the exit fee. */
  lemma ExpiryCostsTheFee(params: Params, s: Sim, symbol: string)
    requires symbol in s.positions
    ensures var p, t := s.positions[symbol], Expire(params, s, [symbol]);
            && Leaves(params, s, t, symbol, p.entryPrice, "EXPIRE")
            && t.balance == s.balance - params.feeRate * p.entryPrice * p.quantity
  {
    assert [symbol][..0] == [];
    CloseLeaves(params, s, symbol, s.positions[symbol].entryPrice, "EXPIRE");
    var p := s.positions[symbol];
    assert Profit(params, p, p.entryPrice, p.quantity) == -(params.feeRate * p.entryPrice * p.quantity);
    hide ClosePosition, Profit;
  }

  // ---- The backtester ----

  class Backtester {
    const params: Params
    var balance: real
    var peakBalance: real
    var maxDd: real
    var positions: map<string, Position>
    var results: seq<Result>
    var equityCurve: seq<real>
    /** Not in the code: what each entry bought and paid, by the serial its position and results carry. */
    var openings: seq<Opening>

    ghost function Abs(): Sim
      reads this
    {
      Sim(balance, peakBalance, maxDd, positions, results, equityCurve, openings)
    }

    constructor (params: Params)
      ensures this.params == params
    {
      this.params := params;
      positions, results, equityCurve, openings := map[], [], [], [];
    }

    /** Replays the signals and expires what is left; `symbols` is the order in which that happened. */
    method Run(signals: seq<Signal>) returns (ghost symbols: seq<string>)
      requires PricesPositive(signals) && params.leverage >= 1
      modifies this
      ensures Abs() == Expire(params, Replay(params, signals), symbols)
      ensures forall k :: k in Replay(params, signals).positions <==> k in symbols
      ensures params.tradeAmount >= 0.0 ==>
                && positions == map[]
                && balance == params.initialBalance + Sum(Pnls(results)) - Sum(Fees(openings))
                && equityCurve != [] && peakBalance == Peak(equityCurve) && maxDd == MaxDrawdown(equityCurve)
                && forall i :: 0 <= i < |openings| ==>
                                 0.0 <= openings[i].quantity - QtyClosed(results, i) <= CLOSED_BELOW
    {
      Reset();
      hide Fresh, Process, Expire, Peak, MaxDrawdown, Sum, QtyClosed;
      for i := 0 to |signals|
        invariant Abs() == Replay(params, signals[..i])
      {
        assert signals[..i + 1][..i] == signals[..i];
        ProcessSignal(signals[i]);
      }
      assert signals[..|signals|] == signals;
      symbols := CloseAllRemaining();
      if params.tradeAmount >= 0.0 {
        RunConserves(params, signals, symbols);
      }
    }

    method Reset()
      modifies this
      ensures Abs() == Fresh(params)
    {
      balance := params.initialBalance;
      peakBalance, maxDd := balance, 0.0;
      positions, results, openings := map[], [], [];
      equityCurve := [balance];
    }

    method ProcessSignal(sig: Signal)
      requires sig.price > 0.0 && params.leverage >= 1
      modifies this
      ensures Abs() == Process(params, old(Abs()), sig)
    {
      hide HandleEntry, HandleTp, ClosePosition;
      if sig.IsEntry() {
        EnterOrReverse(sig);
      } else if sig.IsTp() {
        TakeProfit(sig);
      } else if sig.IsSl() {
        Close(sig.symbol, sig.price, "SL");
      } else if sig.IsReentry() {
        Reenter(sig);
      }
    }

    method EnterOrReverse(sig: Signal)
      requires sig.price > 0.0 && params.leverage >= 1
      modifies this
      ensures Abs() == HandleEntry(params, old(Abs()), sig)
    {
      hide ClosePosition, OpeningOf;
      var side := SideOf(sig.alert);
      if sig.symbol in positions {
        if positions[sig.symbol].side == side {
          return;
        }
        Close(sig.symbol, sig.price, "REVERSE");
      } else {
        AbsentStays(params, Abs(), sig.symbol, sig.price, "REVERSE");
      }
      if params.tradeAmount / params.leverage as real > balance * 0.95 {
        return;
      }
      var o := OpeningOf(params, sig.price);
      balance := balance - o.fee;
      positions := positions[sig.symbol := Position(sig.symbol, side, sig.price, o.quantity, o.quantity, |openings|)];
      openings := openings + [o];
    }

    method Reenter(sig: Signal)
      requires sig.price > 0.0 && params.leverage >= 1
      modifies this
      ensures Abs() == HandleReentry(params, old(Abs()), sig)
    {
      hide HandleEntry;
      if sig.symbol !in positions {
        EnterOrReverse(sig.(alert := if sig.direction == "bull" then "buy" else "sell"));
      }
    }

    method TakeProfit(sig: Signal)
      modifies this
      ensures Abs() == HandleTp(params, old(Abs()), sig)
    {
      hide Drawdown, NetPnl, TpQty;
      if sig.symbol !in positions {
        return;
      }
      var p := positions[sig.symbol];
      var qty := TpQty(params, p, sig.alert);
      if qty <= 0.0 {
        return;
      }
      var pnl := NetPnl(params, p, sig.price, qty);
      balance := balance + pnl;
      positions := positions[sig.symbol := p.(quantity := p.quantity - qty)];
      results := results + [Result(p.serial, p.symbol, p.side, p.entryPrice, sig.price, qty, pnl, sig.alert)];
      if positions[sig.symbol].quantity <= CLOSED_BELOW {
        positions := positions - {sig.symbol};
      }
      UpdateCurve();
    }

    method Close(symbol: string, exitPrice: real, reason: string)
      modifies this
      ensures Abs() == ClosePosition(params, old(Abs()), symbol, exitPrice, reason)
    {
      hide Drawdown, NetPnl;
      if symbol !in positions {
        return;
      }
      var p := positions[symbol];
      var pnl := NetPnl(params, p, exitPrice, p.quantity);
      balance := balance + pnl;
      results := results + [Result(p.serial, p.symbol, p.side, p.entryPrice, exitPrice, p.quantity, pnl, reason)];
      positions := positions - {symbol};
      UpdateCurve();
    }

    method UpdateCurve()
      modifies `equityCurve, `peakBalance, `maxDd
      ensures Abs() == UpdateEquity(old(Abs()))
    {
      equityCurve := equityCurve + [balance];
      if balance > peakBalance {
        peakBalance := balance;
      }
      var dd := Drawdown(peakBalance, balance);
      maxDd := Max(maxDd, dd);
    }

    method CloseAllRemaining() returns (symbols: seq<string>)
      modifies this
      ensures Abs() == Expire(params, old(Abs()), symbols)
      ensures forall k :: k in old(positions) <==> k in symbols
    {
      hide ClosePosition;
      symbols := ListSymbols();
      for i := 0 to |symbols|
        invariant Abs() == Expire(params, old(Abs()), symbols[..i])
        invariant forall j :: i <= j < |symbols| ==> symbols[j] in positions
      {
        assert symbols[..i + 1][..i] == symbols[..i];
        CloseLeavesOthers(params, Abs(), symbols[i], positions[symbols[i]].entryPrice, "EXPIRE");
        Close(symbols[i], positions[symbols[i]].entryPrice, "EXPIRE");
      }
      assert symbols[..|symbols|] == symbols;
    }

    method ListSymbols() returns (symbols: seq<string>)
      ensures forall k :: k in positions <==> k in symbols
      ensures forall i, j :: 0 <= i < j < |symbols| ==> symbols[i] != symbols[j]
    {
      symbols := [];
      var todo := positions.Keys;
      while todo != {}
        invariant todo <= positions.Keys
        invariant forall k :: k in positions <==> k in todo || k in symbols
        invariant forall i :: 0 <= i < |symbols| ==> symbols[i] !in todo
        invariant forall i, j :: 0 <= i < j < |symbols| ==> symbols[i] != symbols[j]
        decreases |todo|
      {
        var k :| k in todo;
        symbols, todo := symbols + [k], todo - {k};
      }
    }
  }

  lemma AbsentStays(params: Params, s: Sim, symbol: string, exit: real, reason: string)
    requires symbol !in s.positions
    ensures ClosePosition(params, s, symbol, exit, reason) == s
  {
  }

  lemma CloseLeavesOthers(params: Params, s: Sim, symbol: string, exit: real, reason: string)
    ensures forall k :: k in s.positions && k != symbol ==>
                          k in ClosePosition(params, s, symbol, exit, reason).positions
  {
    if symbol in s.positions {
      SettleShape(params, s, symbol, exit, s.positions[symbol].quantity, true, reason);
      hide Settle;
    }
  }
}
