/**
 The daily and weekly sums of the risk manager. Both are cleared by whichever call first looks at the
 calendar on a new day; the weekly one only if that day is a Monday.
 */
module RiskCalendar {

  datatype Day = Day(ofYear: int, monday: bool)

  datatype Sums = Sums(daily: real, weekly: real, lastDay: int, lastWeekDay: int)

  const FRESH := Sums(0.0, 0.0, -1, -1)

  function AfterDay(today: Day, s: Sums): Sums {
    if today.ofYear == s.lastDay then s
    else if today.monday && today.ofYear != s.lastWeekDay then Sums(0.0, 0.0, today.ofYear, today.ofYear)
    else s.(daily := 0.0, lastDay := today.ofYear)
  }

  /** A call on a day, by its number since 1970: a check adds nothing, a closed trade its profit. */
  datatype Tick = Tick(day: nat, ofYear: int, pnl: real)

  /** The first of January 1970 was a Thursday. */
  predicate IsMonday(day: nat) {
    (day + 3) % 7 == 0
  }

  /** The Monday of the day's week, unless that was before 1970. */
  function MondayOf(day: nat): (m: nat)
    requires day >= 4
    ensures m <= day < m + 7 && IsMonday(m)
  {
    day - (day + 3) % 7
  }

  function After(t: Tick, s: Sums): Sums {
    var r := AfterDay(Day(t.ofYear, IsMonday(t.day)), s);
    r.(daily := r.daily + t.pnl, weekly := r.weekly + t.pnl)
  }

  function SumsOf(ticks: seq<Tick>): Sums {
    if ticks == [] then FRESH else After(ticks[|ticks| - 1], SumsOf(ticks[..|ticks| - 1]))
  }

  /** What was earned on the day or later. */
  function Since(ticks: seq<Tick>, day: nat): real {
    if ticks == [] then 0.0
    else
      var t := ticks[|ticks| - 1];
      Since(ticks[..|ticks| - 1], day) + if day <= t.day then t.pnl else 0.0
  }

  predicate CalledOn(ticks: seq<Tick>, day: nat) {
    exists i :: 0 <= i < |ticks| && ticks[i].day == day
  }

  /** `day` is the latest Monday with a call on it. */
  ghost predicate LastMonday(ticks: seq<Tick>, day: nat) {
    && IsMonday(day) && CalledOn(ticks, day)
    && forall i :: 0 <= i < |ticks| && IsMonday(ticks[i].day) ==> ticks[i].day <= day
  }

  ghost predicate InOrder(ticks: seq<Tick>) {
    forall i, j :: 0 <= i <= j < |ticks| ==> ticks[i].day <= ticks[j].day
  }

  /** The day of the year tells the days of two calls apart. */
  predicate ToldApart(a: Tick, b: Tick) {
    a.ofYear == b.ofYear <==> a.day == b.day
  }

  /**
   Calls in order. The day of the year tells successive calls apart, and a call on a Monday from those on
   the Monday called on before it; only gaps of whole years could break that.
   */
  ghost predicate Calendar(ticks: seq<Tick>) {
    && InOrder(ticks)
    && (forall i :: 0 <= i < |ticks| ==> 0 <= ticks[i].ofYear)
    && (forall i :: 0 < i < |ticks| ==> ToldApart(ticks[i - 1], ticks[i]))
    && (forall i, j :: 0 <= i < j < |ticks| && IsMonday(ticks[j].day) && LastMonday(ticks[..j], ticks[i].day) ==>
                         ToldApart(ticks[i], ticks[j]))
  }

  ghost predicate NoMonday(ticks: seq<Tick>) {
    forall i :: 0 <= i < |ticks| ==> !IsMonday(ticks[i].day)
  }

  lemma {:induction false} SinceBefore(ticks: seq<Tick>, day: nat)
    requires forall i :: 0 <= i < |ticks| ==> ticks[i].day < day
    ensures Since(ticks, day) == 0.0
  {
    if ticks != [] {
      SinceBefore(ticks[..|ticks| - 1], day);
    }
  }

  /** The weekly sum counts from the Monday on, which is the one last cleared on. */
  ghost predicate Weekly(ticks: seq<Tick>, m: nat, s: Sums) {
    s.weekly == Since(ticks, m) && exists i :: 0 <= i < |ticks| && ticks[i].day == m && ticks[i].ofYear == s.lastWeekDay
  }

  /** What the four fields are, in terms of the calls so far. */
  ghost predicate Means(ticks: seq<Tick>, s: Sums) {
    && (if ticks == [] then s == FRESH
        else s.lastDay == ticks[|ticks| - 1].ofYear && s.daily == Since(ticks, ticks[|ticks| - 1].day))
    && (NoMonday(ticks) ==> s.weekly == Since(ticks, 0) && s.lastWeekDay == -1)
    && (forall m: nat :: LastMonday(ticks, m) ==> Weekly(ticks, m, s))
  }

  lemma {:induction false} SomeLastMonday(ticks: seq<Tick>) returns (m: nat)
    requires InOrder(ticks) && !NoMonday(ticks)
    ensures LastMonday(ticks, m)
  {
    var n := |ticks| - 1;
    if IsMonday(ticks[n].day) {
      m := ticks[n].day;
    } else {
      m := SomeLastMonday(ticks[..n]);
      var i :| 0 <= i < n && ticks[..n][i].day == m;
      assert ticks[i].day == m;
      forall j | 0 <= j < |ticks| && IsMonday(ticks[j].day)
        ensures ticks[j].day <= m
      {
        assert j < n && ticks[..n][j] == ticks[j];
      }
    }
  }

  /** The last Monday before a call on another day. */
  lemma LastMondayBefore(init: seq<Tick>, t: Tick, m: nat)
    requires InOrder(init + [t]) && LastMonday(init + [t], m)
    requires m != t.day || CalledOn(init, m)
    ensures LastMonday(init, m) && m <= t.day
  {
    var ticks := init + [t];
    var i :| 0 <= i < |ticks| && ticks[i].day == m;
    assert ticks[i].day <= ticks[|init|].day;
    assert i < |init| ==> init[i] == ticks[i];
    forall j | 0 <= j < |init| && IsMonday(init[j].day)
      ensures init[j].day <= m
    {
      assert ticks[j] == init[j];
    }
  }

  lemma SinceSnoc(init: seq<Tick>, t: Tick, day: nat)
    ensures Since(init + [t], day) == Since(init, day) + if day <= t.day then t.pnl else 0.0
  {
    assert (init + [t])[..|init|] == init;
  }

  lemma CalendarPrefix(init: seq<Tick>, t: Tick)
    requires Calendar(init + [t])
    ensures Calendar(init) && 0 <= t.ofYear
    ensures init != [] ==> ToldApart(init[|init| - 1], t)
    ensures forall i :: 0 <= i < |init| ==>
                          init[i].day <= t.day
                          && (IsMonday(t.day) && LastMonday(init, init[i].day) ==> ToldApart(init[i], t))
  {
    hide IsMonday, LastMonday, ToldApart;
    var ticks := init + [t];
    assert ticks[|init|] == t && ticks[..|init|] == init;
    assert forall i :: 0 <= i < |init| ==> ticks[i] == init[i];
    assert init != [] ==> ToldApart(ticks[|init| - 1], ticks[|init|]);
    assert forall i :: 0 < i < |init| ==> ToldApart(ticks[i - 1], ticks[i]);
    assert forall j :: 0 <= j < |init| ==> ticks[..j] == init[..j];
  }

  /** Another call on the same day. */
  lemma SameDayMeans(init: seq<Tick>, t: Tick, s: Sums)
    requires Calendar(init + [t]) && Means(init, s) && init != [] && init[|init| - 1].day == t.day
    ensures Means(init + [t], After(t, s))
  {
    var ticks := init + [t];
    CalendarPrefix(init, t);
    SinceSnoc(init, t, t.day);
    SinceSnoc(init, t, 0);
    assert After(t, s) == s.(daily := s.daily + t.pnl, weekly := s.weekly + t.pnl);
    if NoMonday(ticks) {
      forall i | 0 <= i < |init|
        ensures !IsMonday(init[i].day)
      {
        assert ticks[i] == init[i];
      }
    }
    forall m: nat | LastMonday(ticks, m)
      ensures Weekly(ticks, m, After(t, s))
    {
      assert CalledOn(init, t.day);
      LastMondayBefore(init, t, m);
      CarriedOn(init, t, m, s, After(t, s));
    }
  }

  lemma CarriedOn(init: seq<Tick>, t: Tick, m: nat, s: Sums, r: Sums)
    requires Weekly(init, m, s) && m <= t.day && r.weekly == s.weekly + t.pnl && r.lastWeekDay == s.lastWeekDay
    ensures Weekly(init + [t], m, r)
  {
    SinceSnoc(init, t, m);
    var i :| 0 <= i < |init| && init[i].day == m && init[i].ofYear == s.lastWeekDay;
    assert (init + [t])[i] == init[i];
  }

  /** The first call on a Monday clears both sums. */
  lemma MondayMeans(init: seq<Tick>, t: Tick, s: Sums)
    requires Calendar(init + [t]) && Means(init, s) && (init == [] || init[|init| - 1].day != t.day) && IsMonday(t.day)
    ensures Means(init + [t], After(t, s))
  {
    var ticks := init + [t];
    CalendarPrefix(init, t);
    EarlierDays(init, t);
    NewMonday(init, t, s);
    SinceBefore(init, t.day);
    SinceSnoc(init, t, t.day);
    assert After(t, s) == Sums(t.pnl, t.pnl, t.ofYear, t.ofYear);
    assert ticks[|init|] == t;
    forall m: nat | LastMonday(ticks, m)
      ensures Weekly(ticks, m, After(t, s))
    {
      assert m == t.day;
    }
  }

  lemma EarlierDays(init: seq<Tick>, t: Tick)
    requires Calendar(init + [t]) && (init == [] || init[|init| - 1].day != t.day)
    ensures forall i :: 0 <= i < |init| ==> init[i].day < t.day
  {
    var ticks := init + [t];
    assert ticks[|init|] == t;
    forall i | 0 <= i < |init|
      ensures init[i].day < t.day
    {
      assert ticks[i].day <= ticks[|init| - 1].day <= ticks[|init|].day;
    }
  }

  lemma NewMonday(init: seq<Tick>, t: Tick, s: Sums)
    requires Calendar(init + [t]) && Means(init, s) && (init == [] || init[|init| - 1].day != t.day)
    ensures t.ofYear != s.lastDay && (IsMonday(t.day) ==> t.ofYear != s.lastWeekDay)
  {
    CalendarPrefix(init, t);
    EarlierDays(init, t);
    if !NoMonday(init) {
      var m := SomeLastMonday(init);
      assert Weekly(init, m, s);
    }
  }

  /** A new day that is no Monday clears the daily sum only. */
  lemma WeekdayMeans(init: seq<Tick>, t: Tick, s: Sums)
    requires Calendar(init + [t]) && Means(init, s) && (init == [] || init[|init| - 1].day != t.day) && !IsMonday(t.day)
    ensures Means(init + [t], After(t, s))
  {
    var ticks := init + [t];
    CalendarPrefix(init, t);
    EarlierDays(init, t);
    NewMonday(init, t, s);
    SinceBefore(init, t.day);
    SinceSnoc(init, t, t.day);
    SinceSnoc(init, t, 0);
    assert After(t, s) == Sums(t.pnl, s.weekly + t.pnl, t.ofYear, s.lastWeekDay);
    if NoMonday(ticks) {
      forall i | 0 <= i < |init|
        ensures !IsMonday(init[i].day)
      {
        assert ticks[i] == init[i];
      }
    }
    forall m: nat | LastMonday(ticks, m)
      ensures Weekly(ticks, m, After(t, s))
    {
      LastMondayBefore(init, t, m);
      CarriedOn(init, t, m, s, After(t, s));
    }
  }

  /**
   The daily sum is what the current day has earned; the weekly one is what was earned since the latest
   Monday on which anything called, or since the start if nothing ever called on a Monday.
   */
  lemma {:induction false} SumsMean(ticks: seq<Tick>)
    requires Calendar(ticks)
    ensures Means(ticks, SumsOf(ticks))
  {
    if ticks != [] {
      var n := |ticks| - 1;
      var init, t := ticks[..n], ticks[n];
      assert ticks == init + [t];
      CalendarPrefix(init, t);
      SumsMean(init);
      hide Means, After, Calendar;
      if init != [] && init[n - 1].day == t.day {
        SameDayMeans(init, t, SumsOf(init));
      } else if IsMonday(t.day) {
        MondayMeans(init, t, SumsOf(init));
      } else {
        WeekdayMeans(init, t, SumsOf(init));
      }
    }
  }

  // ---- When the weekly sum is the week's ----

  /** The same calls with other profits. */
  function Earning(ticks: seq<Tick>, pnls: seq<real>): (r: seq<Tick>)
    requires |pnls| == |ticks|
    ensures |r| == |ticks| && forall i :: 0 <= i < |r| ==> r[i] == ticks[i].(pnl := pnls[i])
  {
    seq(|ticks|, i requires 0 <= i < |ticks| => ticks[i].(pnl := pnls[i]))
  }

  /** Whatever is earned, the weekly sum after these calls is what the current week has earned. */
  ghost predicate WeeklyIsThisWeek(ticks: seq<Tick>, monday: nat) {
    forall pnls: seq<real> :: |pnls| == |ticks| ==>
                                SumsOf(Earning(ticks, pnls)).weekly == Since(Earning(ticks, pnls), monday)
  }

  /**
   The weekly sum is the current week's, whatever was earned, if and only if something called on the
   week's Monday, or nothing called before it at all.
   */
  lemma WeeklyIsThisWeekIff(ticks: seq<Tick>)
    requires Calendar(ticks) && ticks != [] && ticks[|ticks| - 1].day >= 4
    ensures var monday := MondayOf(ticks[|ticks| - 1].day);
            WeeklyIsThisWeek(ticks, monday) <==>
            CalledOn(ticks, monday) || forall i :: 0 <= i < |ticks| ==> monday <= ticks[i].day
  {
    hide MondayOf, Calendar, CalledOn, Earning, SumsOf, Since, IsMonday;
    var monday := MondayOf(ticks[|ticks| - 1].day);
    if CalledOn(ticks, monday) || forall i :: 0 <= i < |ticks| ==> monday <= ticks[i].day {
      forall pnls: seq<real> | |pnls| == |ticks|
        ensures SumsOf(Earning(ticks, pnls)).weekly == Since(Earning(ticks, pnls), monday)
      {
        ThisWeekFor(ticks, pnls, monday);
      }
    } else {
      var i :| 0 <= i < |ticks| && ticks[i].day < monday;
      var ones := TooMuchFor(ticks, monday, i);
      assert |ones| == |ticks|;
    }
  }

  lemma ThisWeekFor(ticks: seq<Tick>, pnls: seq<real>, monday: nat)
    requires Calendar(ticks) && ticks != [] && |pnls| == |ticks|
    requires IsMonday(monday) && monday <= ticks[|ticks| - 1].day < monday + 7
    requires CalledOn(ticks, monday) || forall i :: 0 <= i < |ticks| ==> monday <= ticks[i].day
    ensures SumsOf(Earning(ticks, pnls)).weekly == Since(Earning(ticks, pnls), monday)
  {
    hide Earning, Calendar, CalledOn, SumsOf, Since, IsMonday;
    EarningKeeps(ticks, pnls);
    EarningLast(ticks, pnls);
    WeeklyFrom(Earning(ticks, pnls), monday);
  }

  /** Profits for which the weekly sum is not the week's. */
  lemma TooMuchFor(ticks: seq<Tick>, monday: nat, i: nat) returns (pnls: seq<real>)
    requires Calendar(ticks) && i < |ticks| && ticks[i].day < monday && !CalledOn(ticks, monday)
    requires IsMonday(monday) && monday <= ticks[|ticks| - 1].day < monday + 7
    ensures |pnls| == |ticks| && SumsOf(Earning(ticks, pnls)).weekly > Since(Earning(ticks, pnls), monday)
  {
    pnls := seq(|ticks|, _ => 1.0);
    hide Earning, Calendar, CalledOn, SumsOf, Since, IsMonday;
    EarningKeeps(ticks, pnls);
    EarningLast(ticks, pnls);
    WeeklyTooMuch(Earning(ticks, pnls), monday, i);
  }

  lemma EarningKeeps(ticks: seq<Tick>, pnls: seq<real>)
    requires Calendar(ticks) && |pnls| == |ticks|
    ensures Calendar(Earning(ticks, pnls))
    ensures forall m: nat :: CalledOn(Earning(ticks, pnls), m) <==> CalledOn(ticks, m)
  {
    var t := Earning(ticks, pnls);
    hide Earning;
    SameCalls(t, ticks);
    forall i, j | 0 <= i < j < |t| && IsMonday(t[j].day) && LastMonday(t[..j], t[i].day)
      ensures ToldApart(t[i], t[j])
    {
      SameCalls(t[..j], ticks[..j]);
      assert LastMonday(ticks[..j], ticks[i].day);
      assert ToldApart(ticks[i], ticks[j]);
    }
    forall i | 0 < i < |t|
      ensures ToldApart(t[i - 1], t[i])
    {
      assert ToldApart(ticks[i - 1], ticks[i]);
    }
  }

  lemma SameCalls(a: seq<Tick>, b: seq<Tick>)
    requires |a| == |b| && forall i :: 0 <= i < |a| ==> a[i].day == b[i].day
    ensures forall m: nat :: CalledOn(a, m) <==> CalledOn(b, m)
    ensures forall m: nat :: LastMonday(a, m) <==> LastMonday(b, m)
  {
    forall m: nat
      ensures CalledOn(a, m) <==> CalledOn(b, m)
    {
      if i :| 0 <= i < |a| && a[i].day == m {
        assert b[i].day == m;
      }
      if i :| 0 <= i < |b| && b[i].day == m {
        assert a[i].day == m;
      }
    }
    hide IsMonday, CalledOn;
    forall m: nat
      ensures LastMonday(a, m) <==> LastMonday(b, m)
    {
      assert forall i :: 0 <= i < |a| ==> a[i].day == b[i].day;
    }
  }

  lemma {:induction false} SinceAll(ticks: seq<Tick>, day: nat)
    requires forall i :: 0 <= i < |ticks| ==> day <= ticks[i].day
    ensures Since(ticks, day) == Since(ticks, 0)
  {
    if ticks != [] {
      SinceAll(ticks[..|ticks| - 1], day);
    }
  }

  lemma {:induction false} SinceEarlierIsMore(ticks: seq<Tick>, early: nat, late: nat, i: nat)
    requires forall j :: 0 <= j < |ticks| ==> ticks[j].pnl == 1.0
    requires early <= late
    ensures Since(ticks, late) <= Since(ticks, early)
    ensures i < |ticks| && early <= ticks[i].day < late ==> Since(ticks, late) < Since(ticks, early)
  {
    if ticks != [] {
      SinceEarlierIsMore(ticks[..|ticks| - 1], early, late, i);
    }
  }

  /** A Monday in or before the week is the week's or an earlier one. */
  lemma MondayInWeek(m: nat, monday: nat)
    requires IsMonday(m) && IsMonday(monday) && m < monday + 7
    ensures m <= monday
  {
  }

  lemma WeeklyFrom(ticks: seq<Tick>, monday: nat)
    requires Calendar(ticks) && ticks != [] && IsMonday(monday) && monday <= ticks[|ticks| - 1].day < monday + 7
    requires CalledOn(ticks, monday) || forall i :: 0 <= i < |ticks| ==> monday <= ticks[i].day
    ensures SumsOf(ticks).weekly == Since(ticks, monday)
  {
    SumsMean(ticks);
    hide SumsOf, IsMonday, Since;
    forall i | 0 <= i < |ticks| && IsMonday(ticks[i].day)
      ensures ticks[i].day <= monday
    {
      assert ticks[i].day <= ticks[|ticks| - 1].day;
      MondayInWeek(ticks[i].day, monday);
    }
    if CalledOn(ticks, monday) {
      assert LastMonday(ticks, monday);
      assert Weekly(ticks, monday, SumsOf(ticks));
    } else {
      assert NoMonday(ticks);
      SinceAll(ticks, monday);
    }
  }

  lemma WeeklyTooMuch(ticks: seq<Tick>, monday: nat, i: nat)
    requires Calendar(ticks) && ticks != [] && IsMonday(monday) && monday <= ticks[|ticks| - 1].day < monday + 7
    requires !CalledOn(ticks, monday) && i < |ticks| && ticks[i].day < monday
    requires forall j :: 0 <= j < |ticks| ==> ticks[j].pnl == 1.0
    ensures SumsOf(ticks).weekly > Since(ticks, monday)
  {
    SumsMean(ticks);
    hide SumsOf, IsMonday, Since;
    if NoMonday(ticks) {
      SinceEarlierIsMore(ticks, 0, monday, i);
    } else {
      var m := SomeLastMonday(ticks);
      assert Weekly(ticks, m, SumsOf(ticks));
      var j :| 0 <= j < |ticks| && ticks[j].day == m;
      assert ticks[j].day <= ticks[|ticks| - 1].day;
      MondayInWeek(m, monday);
      SinceEarlierIsMore(ticks, m, monday, j);
    }
  }

  lemma EarningLast(ticks: seq<Tick>, pnls: seq<real>)
    requires |pnls| == |ticks|
    ensures forall i :: 0 <= i < |ticks| ==>
                          Earning(ticks, pnls)[i].day == ticks[i].day && Earning(ticks, pnls)[i].pnl == pnls[i]
  {
  }
}
