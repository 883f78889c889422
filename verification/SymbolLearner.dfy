/**
 The symbol learner: counters, streaks, a ring buffer of the last ten results and per-hour and
 per-session figures, each kept up to date on every trade. They refine definitions over the whole
 trade history.
 */
module SymbolLearner {
  import opened FiniteSums

  const RECENT_WINDOW := 10

  /** One finished trade, as one key's history sees it; `hour` is the UTC hour of recording. */
  datatype Outcome = Outcome(pnl: real, hour: nat)
  {
    predicate Won() { pnl > 0.0 }
  }

  datatype Tally = Tally(wins: nat, total: nat)
  {
    function Plus(t: Tally): Tally { Tally(wins + t.wins, total + t.total) }
    function With(won: bool): Tally { Tally(if won then wins + 1 else wins, total + 1) }
  }

  // ---- Sessions ----

  datatype MarketSession = Asia | Europe | Us | OverlapEuUs

  function GetSession(hour: int): MarketSession {
    if 0 <= hour < 8 then Asia
    else if 8 <= hour < 13 then Europe
    else if 13 <= hour < 17 then OverlapEuUs
    else Us
  }

  function Index(s: MarketSession): nat {
    match s case Asia => 0 case Europe => 1 case Us => 2 case OverlapEuUs => 3
  }

  /** The hours of a day that make up each session, by session index. */
  function Hours(session: nat): (nat, nat)
    requires session < 4
  {
    if session == 0 then (0, 8) else if session == 1 then (8, 13) else if session == 2 then (17, 24) else (13, 17)
  }

  // ---- Definitions over a history ----

  function Pnls(h: seq<Outcome>): seq<real> {
    seq(|h|, i requires 0 <= i < |h| => h[i].pnl)
  }

  function Wins(h: seq<Outcome>): nat {
    if h == [] then 0 else Wins(h[..|h| - 1]) + if h[|h| - 1].Won() then 1 else 0
  }

  /** The outcomes recorded from hour `lo` up to but not including `hi`. */
  function Between(h: seq<Outcome>, lo: nat, hi: nat): Tally {
    if h == [] then Tally(0, 0)
    else
      var o := h[|h| - 1];
      var t := Between(h[..|h| - 1], lo, hi);
      if lo <= o.hour < hi then t.With(o.Won()) else t
  }

  function SumTallies(ts: seq<Tally>): Tally {
    if ts == [] then Tally(0, 0) else SumTallies(ts[..|ts| - 1]).Plus(ts[|ts| - 1])
  }

  /** No win from position i up to j. */
  ghost predicate Winless(h: seq<Outcome>, i: nat, j: nat)
    requires i <= j <= |h|
  {
    forall k :: i <= k < j ==> h[k].pnl <= 0.0
  }

  /** `n` is the length of the winless run the history ends in. */
  ghost predicate IsStreak(h: seq<Outcome>, n: nat) {
    && n <= |h| && Winless(h, |h| - n, |h|)
    && (n == |h| || h[|h| - n - 1].pnl > 0.0)
  }

  /** `n` is the length of the longest winless run anywhere in the history. */
  ghost predicate IsLongestStreak(h: seq<Outcome>, n: nat) {
    && (forall i, j :: 0 <= i <= j <= |h| && Winless(h, i, j) ==> j - i <= n)
    && (exists i, j :: 0 <= i <= j <= |h| && Winless(h, i, j) && j - i == n)
  }

  function Ema(alpha: real, h: seq<Outcome>): real {
    if h == [] then 0.0
    else if |h| == 1 then h[0].pnl
    else Blend(alpha, h[|h| - 1].pnl, Ema(alpha, h[..|h| - 1]))
  }

  function Blend(alpha: real, x: real, previous: real): real {
    alpha * x + (1.0 - alpha) * previous
  }

  function Positives(s: seq<real>): nat {
    if s == [] then 0 else Positives(s[..|s| - 1]) + if s[|s| - 1] > 0.0 then 1 else 0
  }

  lemma {:induction false} PositivesConcat(s: seq<real>, t: seq<real>)
    ensures Positives(s + t) == Positives(s) + Positives(t)
    decreases |t|
  {
    if t == [] {
      assert s + t == s;
    } else {
      PositivesConcat(s, t[..|t| - 1]);
      assert (s + t)[..|s + t| - 1] == s + t[..|t| - 1];
    }
  }

  // ---- The moving average stays among the results it averages ----

  ghost predicate AmongResults(alpha: real, h: seq<Outcome>) {
    exists i, j :: 0 <= i < |h| && 0 <= j < |h| && h[i].pnl <= Ema(alpha, h) <= h[j].pnl
  }

  lemma BlendBetween(alpha: real, x: real, e: real, lo: real, hi: real)
    requires 0.0 <= alpha <= 1.0 && lo <= x <= hi && lo <= e <= hi
    ensures lo <= Blend(alpha, x, e) <= hi
  {
    BlendAbove(alpha, x - lo, e - lo);
    BlendAbove(alpha, hi - x, hi - e);
    assert Blend(alpha, x, e) - lo == Blend(alpha, x - lo, e - lo);
    assert hi - Blend(alpha, x, e) == Blend(alpha, hi - x, hi - e);
  }

  lemma BlendAbove(alpha: real, x: real, e: real)
    requires 0.0 <= alpha <= 1.0 && 0.0 <= x && 0.0 <= e
    ensures 0.0 <= Blend(alpha, x, e)
  {
    assert 0.0 <= alpha * x && 0.0 <= (1.0 - alpha) * e;
  }

  lemma {:induction false} EmaAmongResults(alpha: real, h: seq<Outcome>)
    requires 0.0 <= alpha <= 1.0 && h != []
    ensures AmongResults(alpha, h)
    decreases |h|
  {
    var n := |h| - 1;
    if n == 0 {
      assert h[0].pnl <= Ema(alpha, h) <= h[0].pnl;
    } else {
      var init := h[..n];
      EmaAmongResults(alpha, init);
      var e := Ema(alpha, init);
      var i, j :| 0 <= i < |init| && 0 <= j < |init| && init[i].pnl <= e <= init[j].pnl;
      var lo := if h[n].pnl <= init[i].pnl then n else i;
      var hi := if h[n].pnl >= init[j].pnl then n else j;
      BlendBetween(alpha, h[n].pnl, e, h[lo].pnl, h[hi].pnl);
      assert h[lo].pnl <= Ema(alpha, h) <= h[hi].pnl;
    }
  }

  /** The average never leaves the range of the results exactly for weights between 0 and 1. */
  lemma EmaAmongResultsIff(alpha: real)
    ensures (forall h :: h != [] ==> AmongResults(alpha, h)) <==> 0.0 <= alpha <= 1.0
  {
    if 0.0 <= alpha <= 1.0 {
      forall h: seq<Outcome> | h != []
        ensures AmongResults(alpha, h)
      {
        EmaAmongResults(alpha, h);
      }
    } else {
      var h := [Outcome(0.0, 0), Outcome(1.0, 0)];
      assert h[..1] == [Outcome(0.0, 0)];
      assert Ema(alpha, h[..1]) == 0.0;
      assert Ema(alpha, h) == alpha;
      assert !AmongResults(alpha, h);
    }
  }

  // ---- The weights of the moving average ----

  function Pow(x: real, n: nat): real {
    if n == 0 then 1.0 else x * Pow(x, n - 1)
  }

  /** What the i-th of n results contributes: the newest alpha, each older one (1 - alpha) times as much. */
  function Term(alpha: real, h: seq<Outcome>, i: nat): real
    requires i < |h|
  {
    Pow(1.0 - alpha, |h| - 1 - i) * ((if i == 0 then 1.0 else alpha) * h[i].pnl)
  }

  function Terms(alpha: real, h: seq<Outcome>): seq<real> {
    seq(|h|, i requires 0 <= i < |h| => Term(alpha, h, i))
  }

  lemma {:induction false} SumScaled(s: seq<real>, t: seq<real>, c: real)
    requires |s| == |t| && forall i :: 0 <= i < |s| ==> t[i] == Times(c, s[i])
    ensures Sum(t) == Times(c, Sum(s))
  {
    if s != [] {
      var n := |s| - 1;
      SumScaled(s[..n], t[..n], c);
      TimesSum(c, Sum(s[..n]), s[n]);
      hide Times;
    } else {
      TimesUnits(c);
    }
  }

  lemma TermFades(alpha: real, h: seq<Outcome>, i: nat)
    requires i < |h| - 1
    ensures Term(alpha, h, i) == Times(1.0 - alpha, Term(alpha, h[..|h| - 1], i))
  {
    var p := Pow(1.0 - alpha, |h| - 2 - i);
    var v := (if i == 0 then 1.0 else alpha) * h[i].pnl;
    assert Pow(1.0 - alpha, |h| - 1 - i) == (1.0 - alpha) * p;
    assert (1.0 - alpha) * p * v == (1.0 - alpha) * (p * v);
  }

  /**
   The moving average in closed form: the newest result weighs alpha, every older one (1 - alpha) times as much
   as the one after it, and the first what is left.
   */
  lemma {:induction false} EmaIsWeightedSum(alpha: real, h: seq<Outcome>)
    ensures Ema(alpha, h) == Sum(Terms(alpha, h))
  {
    if |h| == 1 {
      assert Terms(alpha, h) == [h[0].pnl];
      assert Sum([h[0].pnl]) == Sum([h[0].pnl][..0]) + h[0].pnl;
    } else if h != [] {
      EmaIsWeightedSum(alpha, h[..|h| - 1]);
      TermsSum(alpha, h);
      hide Sum, Terms;
    }
  }

  lemma TermsSum(alpha: real, h: seq<Outcome>)
    requires |h| > 1
    ensures Sum(Terms(alpha, h)) == Times(1.0 - alpha, Sum(Terms(alpha, h[..|h| - 1]))) + alpha * h[|h| - 1].pnl
  {
    var n := |h| - 1;
    var all, older := Terms(alpha, h), Terms(alpha, h[..n]);
    LastTerm(alpha, h);
    assert |all| == n + 1 && |older| == n && all[n] == alpha * h[n].pnl;
    hide Term, Times;
    forall i: nat | i < n
      ensures all[..n][i] == Times(1.0 - alpha, older[i])
    {
      TermFades(alpha, h, i);
    }
    hide Terms;
    SumScaled(older, all[..n], 1.0 - alpha);
  }

  lemma LastTerm(alpha: real, h: seq<Outcome>)
    requires |h| > 1
    ensures Term(alpha, h, |h| - 1) == alpha * h[|h| - 1].pnl
  {
    assert Pow(1.0 - alpha, 0) == 1.0;
  }

  // ---- Sessions are sums of hours ----

  function TallyOf(h: seq<Outcome>, session: nat): Tally {
    if h == [] then Tally(0, 0)
    else
      var o := h[|h| - 1];
      var t := TallyOf(h[..|h| - 1], session);
      if Index(GetSession(o.hour)) == session then t.With(o.Won()) else t
  }

  lemma {:induction false} SessionIsAnInterval(h: seq<Outcome>, session: nat)
    requires session < 4 && forall i :: 0 <= i < |h| ==> h[i].hour < 24
    ensures TallyOf(h, session) == Between(h, Hours(session).0, Hours(session).1)
  {
    if h != [] {
      SessionIsAnInterval(h[..|h| - 1], session);
    }
  }

  lemma {:induction false} NextHour(h: seq<Outcome>, lo: nat, hi: nat)
    requires lo <= hi
    ensures Between(h, lo, hi + 1) == Between(h, lo, hi).Plus(Between(h, hi, hi + 1))
  {
    if h != [] {
      NextHour(h[..|h| - 1], lo, hi);
    }
  }

  lemma {:induction false} NoHours(h: seq<Outcome>, lo: nat)
    ensures Between(h, lo, lo) == Tally(0, 0)
  {
    if h != [] {
      NoHours(h[..|h| - 1], lo);
    }
  }

  lemma {:induction false} IntervalIsSumOfHours(h: seq<Outcome>, stats: seq<Tally>, lo: nat, hi: nat)
    requires lo <= hi <= |stats|
    requires forall k :: 0 <= k < |stats| ==> stats[k] == Between(h, k, k + 1)
    ensures SumTallies(stats[lo..hi]) == Between(h, lo, hi)
    decreases hi
  {
    hide Between;
    if lo == hi {
      NoHours(h, lo);
    } else {
      IntervalIsSumOfHours(h, stats, lo, hi - 1);
      NextHour(h, lo, hi - 1);
      assert stats[lo..hi][..hi - 1 - lo] == stats[lo..hi - 1];
      assert stats[lo..hi][hi - 1 - lo] == stats[hi - 1];
    }
  }

  ghost predicate ByTime(hourStats: seq<Tally>, sessionStats: seq<Tally>, h: seq<Outcome>) {
    && |hourStats| == 24 && |sessionStats| == 4
    && (forall k :: 0 <= k < 24 ==> hourStats[k] == Between(h, k, k + 1))
    && (forall s :: 0 <= s < 4 ==> sessionStats[s] == TallyOf(h, s))
  }

  /**
   Each session figure is the sum of the figures of its hours, in UTC: Asia 0 to 8, Europe 8 to 13, both Europe
   and America 13 to 17, America 17 to 24.
   */
  lemma SessionsAreSumsOfHours(hourStats: seq<Tally>, sessionStats: seq<Tally>, h: seq<Outcome>)
    requires ByTime(hourStats, sessionStats, h) && forall i :: 0 <= i < |h| ==> h[i].hour < 24
    ensures |hourStats| == 24 && |sessionStats| == 4
    ensures sessionStats[Index(Asia)] == SumTallies(hourStats[0..8])
    ensures sessionStats[Index(Europe)] == SumTallies(hourStats[8..13])
    ensures sessionStats[Index(OverlapEuUs)] == SumTallies(hourStats[13..17])
    ensures sessionStats[Index(Us)] == SumTallies(hourStats[17..24])
  {
    hide ByTime, SumTallies;
    SessionIsSum(hourStats, sessionStats, h, 0);
    SessionIsSum(hourStats, sessionStats, h, 1);
    SessionIsSum(hourStats, sessionStats, h, 2);
    SessionIsSum(hourStats, sessionStats, h, 3);
  }

  lemma SessionIsSum(hourStats: seq<Tally>, sessionStats: seq<Tally>, h: seq<Outcome>, s: nat)
    requires ByTime(hourStats, sessionStats, h) && forall i :: 0 <= i < |h| ==> h[i].hour < 24
    requires s < 4
    ensures |hourStats| == 24 && |sessionStats| == 4
    ensures sessionStats[s] == SumTallies(hourStats[Hours(s).0..Hours(s).1])
  {
    SessionIsAnInterval(h, s);
    IntervalIsSumOfHours(h, hourStats, Hours(s).0, Hours(s).1);
    hide Between, TallyOf, SumTallies;
  }

  // ---- What is counted ----

  ghost function Indices(h: seq<Outcome>, lo: nat, hi: nat, winners: bool): set<nat> {
    set i: nat | i < |h| && lo <= h[i].hour < hi && (winners ==> h[i].pnl > 0.0)
  }

  /** A tally of some hours counts the results recorded in them, and those of them with a profit. */
  lemma {:induction false} TallyCounts(h: seq<Outcome>, lo: nat, hi: nat)
    ensures Between(h, lo, hi) == Tally(|Indices(h, lo, hi, true)|, |Indices(h, lo, hi, false)|)
  {
    if h != [] {
      TallyCounts(h[..|h| - 1], lo, hi);
      IndicesSnoc(h, lo, hi, true);
      IndicesSnoc(h, lo, hi, false);
      hide Indices;
    }
  }

  lemma IndicesSnoc(h: seq<Outcome>, lo: nat, hi: nat, winners: bool)
    requires h != []
    ensures var n: nat := |h| - 1;
            var counts := lo <= h[n].hour < hi && (winners ==> h[n].pnl > 0.0);
            && Indices(h, lo, hi, winners) == Indices(h[..n], lo, hi, winners) + (if counts then {n} else {})
            && n !in Indices(h[..n], lo, hi, winners)
  {
  }

  /** The win counter counts the results with a profit; with hours of a day it is the sum of all the tallies' wins. */
  lemma {:induction false} WinsAreTallied(h: seq<Outcome>)
    requires forall i :: 0 <= i < |h| ==> h[i].hour < 24
    ensures Between(h, 0, 24) == Tally(Wins(h), |h|) && Wins(h) == |Indices(h, 0, 24, true)|
  {
    TallyCounts(h, 0, 24);
    if h != [] {
      WinsAreTallied(h[..|h| - 1]);
      hide Indices;
    }
  }

  // ---- Streaks ----

  lemma StreakIsTrailing(h: seq<Outcome>, n: nat, i: nat)
    requires IsStreak(h, n) && i <= |h| && Winless(h, i, |h|)
    ensures |h| - i <= n
  {
  }

  lemma StreakAfter(h: seq<Outcome>, n: nat, longest: nat, o: Outcome)
    requires IsStreak(h, n) && IsLongestStreak(h, longest)
    ensures var m: nat := if o.pnl > 0.0 then 0 else n + 1;
            IsStreak(h + [o], m) && IsLongestStreak(h + [o], if longest < m then m else longest)
  {
    var t := h + [o];
    var m: nat := if o.pnl > 0.0 then 0 else n + 1;
    var max := if longest < m then m else longest;
    forall i, j | 0 <= i <= j <= |t| && Winless(t, i, j)
      ensures j - i <= max
    {
      if j <= |h| {
        forall k | i <= k < j
          ensures h[k].pnl <= 0.0
        {
          assert t[k] == h[k];
        }
        assert Winless(h, i, j);
      } else if i < j {
        assert t[|h|].pnl <= 0.0;
        forall k | i <= k < |h|
          ensures h[k].pnl <= 0.0
        {
          assert t[k] == h[k];
        }
        StreakIsTrailing(h, n, i);
      }
    }
    if longest < m {
      assert Winless(t, |t| - m, |t|);
    } else {
      var i, j :| 0 <= i <= j <= |h| && Winless(h, i, j) && j - i == longest;
      assert Winless(t, i, j);
    }
  }

  lemma FiguresAfter(h: seq<Outcome>, o: Outcome)
    ensures Wins(h + [o]) == Wins(h) + if o.Won() then 1 else 0
    ensures Pnls(h + [o]) == Pnls(h) + [o.pnl] && Sum(Pnls(h + [o])) == Sum(Pnls(h)) + o.pnl
  {
    assert (h + [o])[..|h|] == h;
    assert Pnls(h + [o]) == Pnls(h) + [o.pnl];
    SumSnoc(Pnls(h), o.pnl);
  }

  // ---- The ring ----

  /** The slots up to the write position are the newest results; a full ring goes on with the oldest behind it. */
  ghost predicate IsRing(ring: seq<real>, idx: nat, count: nat, results: seq<real>) {
    && |ring| == RECENT_WINDOW && idx < RECENT_WINDOW
    && count == |LastN(results, RECENT_WINDOW)|
    && (count < RECENT_WINDOW ==> idx == count)
    && (if count < RECENT_WINDOW then ring[..count] else ring[idx..] + ring[..idx]) == LastN(results, RECENT_WINDOW)
  }

  /** Where the next result is written. */
  function NextIdx(idx: nat): nat {
    (idx + 1) % RECENT_WINDOW
  }

  /** The number of filled slots after one more. */
  function NextCount(count: nat): nat {
    if count + 1 < RECENT_WINDOW then count + 1 else RECENT_WINDOW
  }

  lemma RingAfter(ring: seq<real>, idx: nat, count: nat, results: seq<real>, x: real)
    requires IsRing(ring, idx, count, results)
    ensures IsRing(ring[idx := x], NextIdx(idx), NextCount(count), results + [x])
  {
    WindowAfter(results, x);
    if count < RECENT_WINDOW {
      FillOn(ring, idx, x);
      hide LastN;
      assert idx == count;
    } else {
      RotateOn(ring, idx, x);
      hide LastN;
      assert NextIdx(idx) == if idx + 1 < RECENT_WINDOW then idx + 1 else 0;
    }
  }

  lemma WindowAfter(results: seq<real>, x: real)
    ensures var w := LastN(results, RECENT_WINDOW);
            LastN(results + [x], RECENT_WINDOW) == if |w| < RECENT_WINDOW then w + [x] else w[1..] + [x]
  {
    LastNSnoc(results, RECENT_WINDOW, x);
  }

  lemma FillOn(ring: seq<real>, idx: nat, x: real)
    requires idx < |ring|
    ensures ring[idx := x][..idx + 1] == ring[..idx] + [x]
    ensures idx + 1 == |ring| ==> ring[idx := x][0..] + ring[idx := x][..0] == ring[..idx] + [x]
  {
    assert idx + 1 == |ring| ==> ring[idx := x][0..] + ring[idx := x][..0] == ring[idx := x][..idx + 1];
  }

  lemma RotateOn(ring: seq<real>, idx: nat, x: real)
    requires idx < |ring|
    ensures var next, i := ring[idx := x], if idx + 1 < |ring| then idx + 1 else 0;
            next[i..] + next[..i] == (ring[idx..] + ring[..idx])[1..] + [x]
  {
    var next := ring[idx := x];
    assert (ring[idx..] + ring[..idx])[1..] == ring[idx + 1..] + ring[..idx];
    if idx + 1 < |ring| {
      assert next[idx + 1..] == ring[idx + 1..];
      assert next[..idx + 1] == ring[..idx] + [x];
    } else {
      assert next == ring[..idx] + [x];
      assert next[0..] + next[..0] == next;
      assert ring[idx + 1..] == [];
    }
  }

  /** Scanning the filled slots in slot order gives the figures of the last ten results. */
  lemma RingFigures(ring: seq<real>, idx: nat, count: nat, results: seq<real>)
    requires IsRing(ring, idx, count, results)
    ensures |ring| == RECENT_WINDOW && count == |LastN(results, RECENT_WINDOW)| <= RECENT_WINDOW
    ensures count == 0 <==> results == []
    ensures Sum(ring[..count]) == Sum(LastN(results, RECENT_WINDOW))
    ensures Positives(ring[..count]) == Positives(LastN(results, RECENT_WINDOW))
  {
    if count == RECENT_WINDOW {
      assert ring[..count] == ring[..idx] + ring[idx..];
      SumConcat(ring[..idx], ring[idx..]);
      SumConcat(ring[idx..], ring[..idx]);
      PositivesConcat(ring[..idx], ring[idx..]);
      PositivesConcat(ring[idx..], ring[..idx]);
    }
  }

  function Per(amount: real, n: nat): real
    requires n > 0
  {
    amount / n as real
  }

  function Mean(results: seq<real>): real
    requires results != []
  {
    Per(Sum(results), |results|)
  }

  function WinShare(results: seq<real>): real
    requires results != []
  {
    Per(Positives(results) as real, |results|)
  }

  /** Over the last ten results, or all of fewer: the average times their number is their sum, the rate their wins. */
  lemma RecentFigures(h: seq<Outcome>)
    requires h != []
    ensures var n := if |h| < 10 then |h| else 10;
            var recent := Pnls(h)[|h| - n..];
            && Mean(LastN(Pnls(h), RECENT_WINDOW)) * n as real == Sum(recent)
            && WinShare(LastN(Pnls(h), RECENT_WINDOW)) * n as real == |set i: nat | i < n && recent[i] > 0.0| as real
  {
    hide Per, Sum, Positives;
    var recent := LastN(Pnls(h), RECENT_WINDOW);
    var n := if |h| < 10 then |h| else 10;
    assert |recent| == n && recent == Pnls(h)[|h| - n..];
    hide LastN, Pnls;
    PerTimes(Sum(recent), n);
    PerTimes(Positives(recent) as real, n);
    PositivesAre(recent);
  }

  lemma PerTimes(amount: real, n: nat)
    requires n > 0
    ensures Per(amount, n) * n as real == amount
  {
  }

  lemma {:induction false} PositivesAre(s: seq<real>)
    ensures Positives(s) == |set i: nat | i < |s| && s[i] > 0.0|
  {
    if s != [] {
      var n := |s| - 1;
      PositivesAre(s[..n]);
      assert (set i: nat | i < |s| && s[i] > 0.0)
          == (set i: nat | i < n && s[..n][i] > 0.0) + if s[n] > 0.0 then {n as nat} else {};
    }
  }

  lemma PnlsSnoc(h: seq<Outcome>, o: Outcome)
    ensures Pnls(h + [o]) == Pnls(h) + [o.pnl]
  {
  }

  lemma IndexInRing(ring: seq<real>, idx: nat, count: nat, results: seq<real>)
    requires IsRing(ring, idx, count, results)
    ensures idx < |ring| == RECENT_WINDOW
  {
  }

  lemma NothingLearned(ring: seq<real>, hourStats: seq<Tally>, sessionStats: seq<Tally>)
    requires |ring| == RECENT_WINDOW && |hourStats| == 24 && |sessionStats| == 4
    requires forall i :: 0 <= i < 24 ==> hourStats[i] == Tally(0, 0)
    requires forall i :: 0 <= i < 4 ==> sessionStats[i] == Tally(0, 0)
    ensures IsStreak([], 0) && IsLongestStreak([], 0) && IsRing(ring, 0, 0, Pnls([])) &&
            ByTime(hourStats, sessionStats, [])
    ensures Sum(Pnls([])) == 0.0 && Wins([]) == 0 && forall alpha :: Ema(alpha, []) == 0.0
  {
    assert Winless([], 0, 0);
    assert ring[..0] == [] == Pnls([]);
  }

  // ---- One key's learned data ----

  class SymbolLearnData {
    var totalTrades: nat
    var wins: nat
    var losses: nat
    var consecutiveLosses: nat
    var maxConsecutiveLosses: nat
    var totalPnl: real
    var emaPnl: real
    var recentIdx: nat
    var recentCount: nat
    const recentPnls: array<real>
    const hourStats: array<Tally>
    const sessionStats: array<Tally>
    ghost var history: seq<Outcome>

    ghost function Repr(): set<object> {
      {this, recentPnls, hourStats, sessionStats}
    }

    /** Every field agrees with its definition over the whole history. */
    ghost predicate Valid(alpha: real)
      reads Repr()
    {
      && recentPnls.Length == RECENT_WINDOW && hourStats.Length == 24 && sessionStats.Length == 4
      && hourStats != sessionStats
      && (forall i :: 0 <= i < |history| ==> history[i].hour < 24)
      && Counted(history) && emaPnl == Ema(alpha, history) && Ring(history) && ByHour(history)
    }

    ghost predicate Counted(h: seq<Outcome>)
      reads this
    {
      && totalTrades == |h| && wins == Wins(h) && losses == |h| - wins && totalPnl == Sum(Pnls(h))
      && IsStreak(h, consecutiveLosses) && IsLongestStreak(h, maxConsecutiveLosses)
    }

    ghost predicate Ring(h: seq<Outcome>)
      reads this, recentPnls
    {
      IsRing(recentPnls[..], recentIdx, recentCount, Pnls(h))
    }

    ghost predicate ByHour(h: seq<Outcome>)
      reads this, hourStats, sessionStats
    {
      ByTime(hourStats[..], sessionStats[..], h)
    }

    constructor (ghost alpha: real)
      ensures Valid(alpha) && history == []
      ensures fresh(Repr())
    {
      totalTrades, wins, losses, consecutiveLosses, maxConsecutiveLosses := 0, 0, 0, 0, 0;
      totalPnl, emaPnl, recentIdx, recentCount := 0.0, 0.0, 0, 0;
      recentPnls := new real[RECENT_WINDOW](_ => 0.0);
      hourStats := new Tally[24](_ => Tally(0, 0));
      sessionStats := new Tally[4](_ => Tally(0, 0));
      history := [];
      new;
      NothingLearned(recentPnls[..], hourStats[..], sessionStats[..]);
      hide IsStreak, IsLongestStreak, IsRing, ByTime, Sum, Pnls, Wins, Ema;
    }

    method Record(alpha: real, pnl: real, hour: nat)
      requires Valid(alpha) && hour < 24
      modifies Repr()
      ensures Valid(alpha) && history == old(history) + [Outcome(pnl, hour)]
    {
      ghost var o := Outcome(pnl, hour);
      hide IsStreak, IsLongestStreak, IsRing, ByTime, Ema, Sum, Wins, Pnls;
      Count(pnl, hour);
      Average(alpha, pnl, hour);
      Place(pnl, hour);
      Remember(pnl, hour);
      history := history + [o];
    }

    method Count(pnl: real, ghost hour: nat)
      requires Counted(history)
      modifies `totalTrades, `totalPnl, `wins, `losses, `consecutiveLosses, `maxConsecutiveLosses
      ensures Counted(history + [Outcome(pnl, hour)])
    {
      hide IsStreak, IsLongestStreak, Sum, Wins, Pnls;
      FiguresAfter(history, Outcome(pnl, hour));
      StreakAfter(history, consecutiveLosses, maxConsecutiveLosses, Outcome(pnl, hour));
      totalTrades := totalTrades + 1;
      totalPnl := totalPnl + pnl;
      if pnl > 0.0 {
        wins := wins + 1;
        consecutiveLosses := 0;
      } else {
        losses := losses + 1;
        consecutiveLosses := consecutiveLosses + 1;
        maxConsecutiveLosses := if maxConsecutiveLosses < consecutiveLosses then consecutiveLosses
        else maxConsecutiveLosses;
      }
    }

    /** Called once the trade has been counted. */
    method Average(alpha: real, pnl: real, ghost hour: nat)
      requires totalTrades == |history| + 1 && emaPnl == Ema(alpha, history)
      modifies `emaPnl
      ensures emaPnl == Ema(alpha, history + [Outcome(pnl, hour)])
    {
      assert (history + [Outcome(pnl, hour)])[..|history|] == history;
      if totalTrades == 1 {
        emaPnl := pnl;
      } else {
        emaPnl := Blend(alpha, pnl, emaPnl);
      }
    }

    method Place(pnl: real, hour: nat)
      requires ByHour(history) && hourStats != sessionStats && hour < 24
      modifies hourStats, sessionStats
      ensures ByHour(history + [Outcome(pnl, hour)])
    {
      assert (history + [Outcome(pnl, hour)])[..|history|] == history;
      hourStats[hour] := hourStats[hour].With(pnl > 0.0);
      var si := Index(GetSession(hour));
      sessionStats[si] := sessionStats[si].With(pnl > 0.0);
    }

    method Remember(pnl: real, ghost hour: nat)
      requires Ring(history)
      modifies recentPnls, `recentIdx, `recentCount
      ensures Ring(history + [Outcome(pnl, hour)])
    {
      PnlsSnoc(history, Outcome(pnl, hour));
      IndexInRing(recentPnls[..], recentIdx, recentCount, Pnls(history));
      hide IsRing, Pnls, NextIdx, NextCount;
      RingAfter(recentPnls[..], recentIdx, recentCount, Pnls(history), pnl);
      WriteSlot(pnl);
      MoveOn();
    }

    method WriteSlot(pnl: real)
      requires recentIdx < recentPnls.Length
      modifies recentPnls
      ensures recentPnls[..] == old(recentPnls[..])[recentIdx := pnl]
    {
      recentPnls[recentIdx] := pnl;
    }

    method MoveOn()
      modifies `recentIdx, `recentCount
      ensures recentIdx == NextIdx(old(recentIdx)) && recentCount == NextCount(old(recentCount))
    {
      recentIdx := (recentIdx + 1) % RECENT_WINDOW;
      recentCount := if recentCount + 1 < RECENT_WINDOW then recentCount + 1 else RECENT_WINDOW;
    }

    lemma NotIn(learner: SymbolLearner)
      ensures learner !in Repr() && this in Repr()
    {
    }

    method RecentAvgPnl() returns (avg: real)
      requires Ring(history)
      ensures avg == if history == [] then 0.0 else Mean(LastN(Pnls(history), RECENT_WINDOW))
    {
      hide IsRing, LastN, Per;
      RingFigures(recentPnls[..], recentIdx, recentCount, Pnls(history));
      if recentCount == 0 {
        return 0.0;
      }
      var n := if recentCount < RECENT_WINDOW then recentCount else RECENT_WINDOW;
      var sum := ScanSum(n);
      assert recentPnls[..][..n] == recentPnls[..n];
      return Per(sum, n);
    }

    method RecentWinRate() returns (rate: real)
      requires Ring(history)
      ensures rate == if history == [] then 0.5 else WinShare(LastN(Pnls(history), RECENT_WINDOW))
    {
      hide IsRing, LastN, Per;
      RingFigures(recentPnls[..], recentIdx, recentCount, Pnls(history));
      if recentCount == 0 {
        return 0.5;
      }
      var n := if recentCount < RECENT_WINDOW then recentCount else RECENT_WINDOW;
      var w := ScanWins(n);
      assert recentPnls[..][..n] == recentPnls[..n];
      return Per(w as real, n);
    }

    method ScanWins(n: nat) returns (w: nat)
      requires n <= recentPnls.Length
      ensures w == Positives(recentPnls[..n])
    {
      w := 0;
      for i := 0 to n
        invariant w == Positives(recentPnls[..i])
      {
        assert recentPnls[..i + 1][..i] == recentPnls[..i];
        if recentPnls[i] > 0.0 {
          w := w + 1;
        }
      }
    }

    method ScanSum(n: nat) returns (sum: real)
      requires n <= recentPnls.Length
      ensures sum == Sum(recentPnls[..n])
    {
      sum := 0.0;
      for i := 0 to n
        invariant sum == Sum(recentPnls[..i])
      {
        assert recentPnls[..i + 1][..i] == recentPnls[..i];
        sum := sum + recentPnls[i];
      }
    }
  }

  // ---- The learner ----

  /** `SYMBOL:TF`, with "all" for a missing timeframe. */
  datatype Key = Key(symbol: string, timeframe: string)

  function MakeKey(symbol: string, timeframe: string): Key {
    Key(symbol, if timeframe == "" then "all" else timeframe)
  }

  datatype Recorded = Recorded(symbol: string, timeframe: string, outcome: Outcome)

  /** The outcomes of one key, in the order they were recorded. */
  ghost function HistoryOf(log: seq<Recorded>, key: Key): seq<Outcome> {
    if log == [] then []
    else
      var r := log[|log| - 1];
      HistoryOf(log[..|log| - 1], key) + if MakeKey(r.symbol, r.timeframe) == key then [r.outcome] else []
  }

  /** A trade belongs to the key of its symbol and timeframe, a missing timeframe counting as "all", and to no other. */
  lemma HistoryAfter(log: seq<Recorded>, r: Recorded)
    ensures forall k :: HistoryOf(log + [r], k) ==
                        if k.symbol == r.symbol && k.timeframe == (if r.timeframe == "" then "all" else r.timeframe)
                        then HistoryOf(log, k) + [r.outcome] else HistoryOf(log, k)
  {
    assert (log + [r])[..|log|] == log;
  }

  class SymbolLearner {
    const enabled: bool
    const alpha: real
    var data: map<Key, SymbolLearnData>
    ghost var log: seq<Recorded>

    ghost var Repr: set<object>

    /** Every key's data is valid for exactly the trades of that key. */
    ghost predicate Valid()
      reads this, Repr
    {
      Holds(log)
    }

    ghost predicate Holds(trades: seq<Recorded>)
      reads this`data, this`Repr, Repr
    {
      && this !in Repr && Separate()
      && (forall k :: k in data ==>
                        data[k].Repr() <= Repr && data[k].Valid(alpha) && data[k].history == HistoryOf(trades, k))
      && (forall k :: k !in data ==> HistoryOf(trades, k) == [])
    }

    ghost predicate Separate()
      reads this`data
    {
      forall j, k :: j in data && k in data && j != k ==> data[j].Repr() !! data[k].Repr()
    }

    constructor (enabled: bool, alpha: real)
      ensures Valid() && log == [] && data == map[]
      ensures this.enabled == enabled && this.alpha == alpha
    {
      this.enabled, this.alpha := enabled, alpha;
      data, log, Repr := map[], [], {};
    }

    method RecordTrade(symbol: string, timeframe: string, pnl: real, hour: nat)
      requires Valid() && hour < 24
      modifies this, Repr
      ensures Valid() && fresh(Repr - old(Repr))
      ensures log == if !enabled || symbol == "" then old(log)
                     else old(log) + [Recorded(symbol, timeframe, Outcome(pnl, hour))]
    {
      if !enabled || symbol == "" {
        return;
      }
      RecordFor(symbol, timeframe, pnl, hour);
    }

    method RecordFor(symbol: string, timeframe: string, pnl: real, hour: nat)
      requires Valid() && hour < 24
      modifies this, Repr
      ensures Valid() && fresh(Repr - old(Repr))
      ensures log == old(log) + [Recorded(symbol, timeframe, Outcome(pnl, hour))]
    {
      hide Holds, HistoryOf, MakeKey, SymbolLearnData.Valid, SymbolLearnData.Repr;
      var key := MakeKey(symbol, timeframe);
      var d := DataFor(key);
      ghost var r := Recorded(symbol, timeframe, Outcome(pnl, hour));
      Update(key, d, r, pnl, hour);
      log := log + [r];
    }

    method Update(key: Key, d: SymbolLearnData, ghost r: Recorded, pnl: real, hour: nat)
      requires Holds(log) && key in data && d == data[key] && hour < 24
      requires MakeKey(r.symbol, r.timeframe) == key && r.outcome == Outcome(pnl, hour)
      modifies Repr
      ensures Holds(log + [r])
    {
      HistoryAfter(log, r);
      hide HistoryOf, SymbolLearnData.Valid, SymbolLearnData.Repr, Separate;
      RecordOne(key, d, pnl, hour);
    }

    /** Recording in one key's data leaves the other keys' data alone. */
    method RecordOne(key: Key, d: SymbolLearnData, pnl: real, hour: nat)
      requires key in data && d == data[key] && hour < 24 && this !in Repr && Separate()
      requires forall k :: k in data ==> data[k].Repr() <= Repr && data[k].Valid(alpha)
      modifies Repr
      ensures forall k :: k in data ==> data[k].Valid(alpha)
      ensures d.history == old(d.history) + [Outcome(pnl, hour)]
      ensures forall k :: k in data && k != key ==> data[k].history == old(data[k].history)
    {
      hide SymbolLearnData.Valid, SymbolLearnData.Repr;
      forall k | k in data && k != key
        ensures data[k] in data[k].Repr() && data[k].Repr() !! d.Repr()
      {
        data[k].NotIn(this);
      }
      d.NotIn(this);
      hide Separate;
      d.Record(alpha, pnl, hour);
    }

    method DataFor(key: Key) returns (d: SymbolLearnData)
      requires Valid()
      modifies this
      ensures Valid() && fresh(Repr - old(Repr)) && log == old(log)
      ensures key in data && d == data[key] && this !in Repr
    {
      hide SymbolLearnData.Valid, SymbolLearnData.Repr;
      assert this !in Repr;
      if key !in data {
        d := new SymbolLearnData(alpha);
        d.NotIn(this);
        Adopt(key, d);
      }
      d := data[key];
    }

    /** Files data of its own for a key without trades. */
    method Adopt(key: Key, d: SymbolLearnData)
      requires Valid() && key !in data && this !in d.Repr() && d.Repr() !! Repr && d.Valid(alpha) && d.history == []
      modifies `data, `Repr
      ensures Valid() && data == old(data)[key := d] && Repr == old(Repr) + d.Repr()
    {
      hide HistoryOf, SymbolLearnData.Valid, SymbolLearnData.Repr;
      data := data[key := d];
      Repr := Repr + d.Repr();
    }
  }
}
