/**
 How far the portfolio caps can be exceeded. The check and the registration are two critical sections,
 so at any moment each worker may hold one entry that is checked and not yet in the book.
 */
module Overshoot {
  import opened FiniteSums
  import opened PortfolioRisk
  import opened Admission

  /** What the caps of the entry check measure. */
  datatype Measure =
    | Positions
    | Direction(long: bool)
    | TfPositions(tf: string)
    | Margins
    | TfMargins(tf: string)
    | Correlation(factor: real)

  function Weight(m: Measure, p: Position): real {
    match m
    case Positions => 1.0
    case Direction(long) => if IsLong(p.side) == long then 1.0 else 0.0
    case TfPositions(tf) => if p.timeframe == tf then 1.0 else 0.0
    case Margins => Margin(p)
    case TfMargins(tf) => if p.timeframe == tf then Margin(p) else 0.0
    case Correlation(factor) => Times(factor, Margin(p))
  }

  ghost function Weigh(m: Measure, book: Book): real {
    Total(map k | k in book :: Weight(m, book[k]))
  }

  /** The most one entry can weigh. */
  function PerEntry(m: Measure): real {
    match m
    case Margins => HARD_MAX_NOTIONAL
    case TfMargins(_) => HARD_MAX_NOTIONAL
    case Correlation(factor) => Times(factor, HARD_MAX_NOTIONAL)
    case _ => 1.0
  }

  function Min(a: int, b: int): int {
    if a < b then a else b
  }

  /** The cap on a measure. */
  function CapAt(cfg: Config, shadowMode: bool, balance: real, m: Measure): real {
    var caps := cfg.Effective(shadowMode);
    match m
    case Positions => Min(caps.concurrent, caps.total) as real
    case Direction(_) => caps.sameDirection as real
    case TfPositions(tf) => cfg.TfLimit(tf) as real
    case Margins => PctOf(balance, caps.marginPct)
    case TfMargins(tf) => PctOf(balance, cfg.TfExposure(tf))
    case Correlation(_) => PctOf(balance, cfg.corrRiskPct)
  }

  predicate MeasureOf(cfg: Config, m: Measure) {
    m.Correlation? ==> m.factor == cfg.corrFactor && 0.0 <= cfg.corrFactor
  }

  // ---- The measures are the figures of the check ----

  lemma WeighPositions(book: Book)
    ensures Weigh(Positions, book) == |book| as real
  {
    var ones := map k | k in book :: Weight(Positions, book[k]);
    TotalOfOnes(ones);
    assert ones.Keys == book.Keys;
    assert |ones.Keys| == |book.Keys|;
  }

  lemma Indicator(book: Book, keys: set<PosKey>, m: Measure)
    requires keys <= book.Keys
    requires forall k :: k in book ==> Weight(m, book[k]) == if k in keys then 1.0 else 0.0
    ensures Weigh(m, book) == |keys| as real
  {
    hide Weight;
    var ones := map k | k in book :: 1.0;
    TotalFilter(ones, keys);
    assert (map k | k in book :: Weight(m, book[k])) == map k | k in ones :: if k in keys then ones[k] else 0.0;
    var some := map k | k in keys :: ones[k];
    TotalOfOnes(some);
    assert some.Keys == keys;
  }

  lemma WeighDirection(book: Book, long: bool)
    ensures Weigh(Direction(long), book) == |InDirection(book, long)| as real
  {
    Indicator(book, InDirection(book, long), Direction(long));
  }

  lemma WeighTf(book: Book, tf: string)
    ensures Weigh(TfPositions(tf), book) == |InTf(book, tf)| as real
  {
    Indicator(book, InTf(book, tf), TfPositions(tf));
  }

  lemma WeighMargins(book: Book)
    ensures Weigh(Margins, book) == TotalMargin(book)
  {
    hide Margin;
    assert (map k | k in book :: Weight(Margins, book[k])) == map k | k in book.Keys :: Margin(book[k]);
  }

  lemma WeighTfMargins(book: Book, tf: string)
    ensures Weigh(TfMargins(tf), book) == TfMargin(book, tf)
  {
    hide Margin;
    var all := map k | k in book :: Margin(book[k]);
    var keys := InTf(book, tf);
    TotalFilter(all, keys);
    assert (map k | k in book :: Weight(TfMargins(tf), book[k])) == map k | k in all :: if k in keys then all[k]
                                                                                        else 0.0;
    assert (map k | k in keys :: all[k]) == map k | k in keys :: Margin(book[k]);
  }

  lemma WeighCorrelation(book: Book, factor: real)
    ensures Weigh(Correlation(factor), book) == Times(factor, TotalMargin(book))
  {
    hide Margin;
    var margins := map k | k in book.Keys :: Margin(book[k]);
    TotalScaled(margins, map k | k in book :: Weight(Correlation(factor), book[k]), factor);
  }

  // ---- Adding, removing and shrinking ----

  lemma AddedWeight(m: Measure, book: Book, k: PosKey, p: Position)
    requires k !in book
    ensures Weigh(m, book[k := p]) == Weigh(m, book) + Weight(m, p)
  {
    hide Weight;
    var next := book[k := p];
    var weights := map j | j in book :: Weight(m, book[j]);
    assert (map j | j in next :: Weight(m, next[j])) == weights[k := Weight(m, p)];
    TotalInsert(weights, k, Weight(m, p));
  }

  lemma WeightSmaller(m: Measure, p: Position, q: Position)
    requires p.timeframe == q.timeframe && p.side == q.side && Margin(p) <= Margin(q)
    requires m.Correlation? ==> 0.0 <= m.factor
    ensures 0.0 <= Weight(m, p) <= Weight(m, q)
  {
    hide Margin, Times;
    if m.Correlation? {
      TimesUnits(m.factor);
      TimesGrows(m.factor, 0.0, Margin(p));
      TimesGrows(m.factor, Margin(p), Margin(q));
    }
  }

  lemma ShrunkWeight(m: Measure, after: Book, before: Book)
    requires Shrunk(after, before) && (m.Correlation? ==> 0.0 <= m.factor)
    ensures Weigh(m, after) <= Weigh(m, before)
  {
    hide Weight, Margin;
    forall k | k in before
      ensures 0.0 <= Weight(m, before[k])
      ensures k in after ==> Weight(m, after[k]) <= Weight(m, before[k])
    {
      WeightSmaller(m, before[k], before[k]);
      if k in after {
        WeightSmaller(m, after[k], before[k]);
      }
    }
    TotalMonotone(map k | k in after :: Weight(m, after[k]), map k | k in before :: Weight(m, before[k]));
  }

  // ---- One entry ----

  lemma EntryWeight(m: Measure, e: Entry)
    requires 0.0 <= Notional(e) && 0.0 <= EntryMargin(e) <= HARD_MAX_NOTIONAL && (m.Correlation? ==> 0.0 <= m.factor)
    ensures 0.0 <= Weight(m, PositionOf(e)) <= PerEntry(m)
  {
    EntryMarginIs(e);
    hide Margin, EntryMargin, Notional, Times;
    if m.Correlation? {
      TimesUnits(m.factor);
      TimesGrows(m.factor, 0.0, EntryMargin(e));
      TimesGrows(m.factor, EntryMargin(e), HARD_MAX_NOTIONAL);
    }
  }

  /** An allowed entry that counts for a cap fits under it together with the book. */
  lemma AllowedFits(cfg: Config, shadowMode: bool, breakerHolds: bool, balance: real, book: Book, e: Entry, m: Measure)
    requires Decide(cfg, shadowMode, breakerHolds, balance, book, e).Allowed? && 0.0 <= Notional(e) && MeasureOf(cfg, m)
    ensures Weight(m, PositionOf(e)) == 0.0
            || Weigh(m, book) + Weight(m, PositionOf(e)) <= CapAt(cfg, shadowMode, balance, m)
  {
    AllowedTests(cfg, shadowMode, breakerHolds, balance, book, e);
    EntryMarginIs(e);
    hide Weigh, Margin, EntryMargin, Notional, PctOf, InTf, InDirection, TotalMargin, TfMargin, Decide, Times,
      Config.Correlated, Config.Effective, Config.TfLimit, Config.TfExposure;
    match m
    case Positions => WeighPositions(book);
    case Direction(long) => WeighDirection(book, long);
    case TfPositions(tf) => WeighTf(book, tf);
    case _ => MarginFits(cfg, shadowMode, balance, book, e, m);
  }

  lemma MarginFits(cfg: Config, shadowMode: bool, balance: real, book: Book, e: Entry, m: Measure)
    requires m.Margins? || m.TfMargins? || m == Correlation(cfg.corrFactor)
    requires TfMargin(book, TfOf(e)) + EntryMargin(e) <= PctOf(balance, cfg.TfExposure(TfOf(e)))
    requires cfg.Correlated(TotalMargin(book) + EntryMargin(e)) <= PctOf(balance, cfg.corrRiskPct)
    requires TotalMargin(book) + EntryMargin(e) <= PctOf(balance, cfg.Effective(shadowMode).marginPct)
    requires Margin(PositionOf(e)) == EntryMargin(e)
    ensures Weight(m, PositionOf(e)) == 0.0
            || Weigh(m, book) + Weight(m, PositionOf(e)) <= CapAt(cfg, shadowMode, balance, m)
  {
    hide Weigh, Margin, EntryMargin, Notional, PctOf, TotalMargin, TfMargin, Times, Config.Correlated,
      Config.Effective, Config.TfExposure;
    match m
    case Margins => WeighMargins(book);
    case TfMargins(tf) => WeighTfMargins(book, tf);
    case Correlation(factor) =>
      WeighCorrelation(book, factor);
      CorrelatedSplits(cfg, TotalMargin(book), EntryMargin(e));
  }

  /** What an allowed verdict says of each cap. */
  lemma AllowedTests(cfg: Config, shadowMode: bool, breakerHolds: bool, balance: real, book: Book, e: Entry)
    requires Decide(cfg, shadowMode, breakerHolds, balance, book, e).Allowed?
    ensures var caps, tf := cfg.Effective(shadowMode), TfOf(e);
            && |book| < caps.concurrent && |book| < caps.total
            && |InDirection(book, IsLong(e.side))| < caps.sameDirection
            && |InTf(book, tf)| < cfg.TfLimit(tf)
            && TfMargin(book, tf) + EntryMargin(e) <= PctOf(balance, cfg.TfExposure(tf))
            && cfg.Correlated(TotalMargin(book) + EntryMargin(e)) <= PctOf(balance, cfg.corrRiskPct)
            && TotalMargin(book) + EntryMargin(e) <= PctOf(balance, caps.marginPct)
  {
    hide InDirection, InTf, TfMargin, TotalMargin, EntryMargin, PctOf, Config.Correlated, SlPastLiquidation, Notional;
  }

  lemma CorrelatedSplits(cfg: Config, a: real, b: real)
    ensures cfg.Correlated(a + b) == Times(cfg.corrFactor, a) + Times(cfg.corrFactor, b)
  {
  }

  // ---- Registered plus pending ----

  /** What every checked but unregistered entry weighs, by worker. */
  ghost function Pending(m: Measure, s: State): map<nat, real> {
    map w: nat | w < |s.workers| && PendingOf(s.workers[w]).Some? ::
      Weight(m, PositionOf(PendingOf(s.workers[w]).value))
  }

  /** What W - 1 other workers may hold unregistered. */
  function Slack(m: Measure, s: State): real {
    Times(PerEntry(m), (|s.workers| - 1) as real)
  }

  ghost predicate Bounded(m: Measure, limit: real, s: State) {
    Weigh(m, s.shared.book) + Total(Pending(m, s)) <= limit + Slack(m, s)
  }

  predicate NonNegative(m: Measure) {
    m.Correlation? ==> 0.0 <= m.factor
  }

  lemma PendingWeights(m: Measure, s: State)
    requires Sound(s) && NonNegative(m)
    ensures forall w :: w in Pending(m, s) ==> 0.0 <= Pending(m, s)[w] <= PerEntry(m)
  {
    hide Weight, PerEntry, IdsFresh, EntryMargin, Notional;
    forall w | w in Pending(m, s)
      ensures 0.0 <= Pending(m, s)[w] <= PerEntry(m)
    {
      assert PhaseOk(s.workers[w]);
      EntryWeight(m, PendingOf(s.workers[w]).value);
    }
  }

  ghost function Below(n: nat): (r: set<nat>)
    ensures |r| == n && forall w: nat :: w in r <==> w < n
  {
    if n == 0 then {} else Below(n - 1) + {n - 1}
  }

  /** The others hold at most one entry each. */
  lemma OthersPending(m: Measure, s: State, w: nat)
    requires Sound(s) && NonNegative(m) && w < |s.workers| && PendingOf(s.workers[w]).None?
    ensures Total(Pending(m, s)) <= Slack(m, s)
  {
    assert Slack(m, s) == Times(PerEntry(m), (|s.workers| - 1) as real);
    hide *;
    PendingWeights(m, s);
    PerEntryNonNegative(m);
    AtMostOthers(m, s, w);
    TotalAtMost(Pending(m, s), PerEntry(m));
    TimesGrows(PerEntry(m), |Pending(m, s)| as real, (|s.workers| - 1) as real);
  }

  lemma AtMostOthers(m: Measure, s: State, w: nat)
    requires w < |s.workers| && PendingOf(s.workers[w]).None?
    ensures |Pending(m, s)| <= |s.workers| - 1
  {
    hide Weight, PositionOf;
    var keys, others := Pending(m, s).Keys, Below(|s.workers|) - {w};
    assert keys <= others;
    SubsetSize(keys, others);
    assert |keys| == |Pending(m, s)|;
  }

  lemma PerEntryNonNegative(m: Measure)
    requires NonNegative(m)
    ensures 0.0 <= PerEntry(m)
  {
    if m.Correlation? {
      TimesUnits(m.factor);
      TimesGrows(m.factor, 0.0, HARD_MAX_NOTIONAL);
    }
  }

  /** A worker gains a pending entry. */
  lemma PendingGains(m: Measure, s: State, t: State, w: nat, e: Entry)
    requires w < |s.workers| && PendingOf(s.workers[w]).None? && t.workers == s.workers[w := Admitted(e)]
    ensures Total(Pending(m, t)) == Total(Pending(m, s)) + Weight(m, PositionOf(e))
  {
    hide Weight, PositionOf;
    var weight := Weight(m, PositionOf(e));
    assert Pending(m, t) == Pending(m, s)[w := weight];
    TotalInsert(Pending(m, s), w, weight);
  }

  lemma PendingLoses(m: Measure, s: State, t: State, w: nat, p: Phase)
    requires w < |s.workers| && PendingOf(s.workers[w]).Some?
    requires PendingOf(p).None? && t.workers == s.workers[w := p]
    ensures Total(Pending(m, s)) == Total(Pending(m, t)) + Weight(m, PositionOf(PendingOf(s.workers[w]).value))
  {
    hide Weight, PositionOf;
    assert Pending(m, t) == Pending(m, s) - {w};
    TotalRemove(Pending(m, s), w);
  }

  lemma PendingDropped(m: Measure, s: State, t: State)
    requires Sound(s) && NonNegative(m) && |t.workers| == |s.workers|
    requires forall w :: 0 <= w < |s.workers| ==>
                           PendingOf(t.workers[w]).None? || PendingOf(t.workers[w]) == PendingOf(s.workers[w])
    ensures Total(Pending(m, t)) <= Total(Pending(m, s))
  {
    PendingWeights(m, s);
    hide Weight, PositionOf, PhaseOk, IdsFresh, PerEntry;
    forall w | w in Pending(m, t)
      ensures w in Pending(m, s) && Pending(m, t)[w] == Pending(m, s)[w]
    {
      assert PendingOf(t.workers[w]) == PendingOf(s.workers[w]);
    }
    TotalMonotone(Pending(m, t), Pending(m, s));
  }

  // ---- Every step keeps the bound ----

  /** A step that only shrinks the book and only drops pending entries keeps the bound. */
  lemma ShrinkingKeepsBound(m: Measure, limit: real, s: State, t: State)
    requires Sound(s) && NonNegative(m) && Bounded(m, limit, s)
    requires Shrunk(t.shared.book, s.shared.book) && |t.workers| == |s.workers|
    requires forall w :: 0 <= w < |s.workers| ==>
                           PendingOf(t.workers[w]).None? || PendingOf(t.workers[w]) == PendingOf(s.workers[w])
    ensures Bounded(m, limit, t)
  {
    hide Sound, Pending, Weigh, Shrunk, PerEntry;
    ShrunkWeight(m, t.shared.book, s.shared.book);
    PendingDropped(m, s, t);
  }

  /** A check that passes adds one pending entry, which fits under the cap with the book alone. */
  lemma CheckKeepsBound(cfg: Config, shadowMode: bool, m: Measure, limit: real, s: State, w: nat, op: Op)
    requires Sound(s) && MeasureOf(cfg, m) && Bounded(m, limit, s) && op.CheckEntry?
    requires CapAt(cfg, shadowMode, s.shared.balance, m) <= limit
    ensures Bounded(m, limit, Step(cfg, shadowMode, s, Act(w, op)))
  {
    hide Sound, Decide, Pending, Weigh, Weight, CapAt, Slack, EntryMargin, Conflicts, Margin, PositionOf;
    var t := Step(cfg, shadowMode, s, Act(w, op));
    if w < |s.workers| && t.workers[w].Admitted? && s.workers[w].Holding? {
      var e := t.workers[w].e;
      AdmittedHasNotional(cfg, shadowMode, s, w, op);
      PendingGains(m, s, t, w, e);
      OthersPending(m, s, w);
      SameSlack(m, s, t);
      AllowedFits(cfg, shadowMode, op.breakerHolds, s.shared.balance, s.shared.book, e, m);
    } else {
      SameBook(s.shared.book);
      ShrinkingKeepsBound(m, limit, s, t);
    }
  }

  lemma SameSlack(m: Measure, s: State, t: State)
    requires |s.workers| == |t.workers|
    ensures Slack(m, s) == Slack(m, t)
  {
  }

  lemma SameBook(book: Book)
    ensures Shrunk(book, book)
  {
  }

  lemma AdmittedHasNotional(cfg: Config, shadowMode: bool, s: State, w: nat, op: Op)
    requires Sound(s) && op.CheckEntry? && w < |s.workers| && s.workers[w].Holding?
    requires Step(cfg, shadowMode, s, Act(w, op)).workers[w].Admitted?
    ensures 0.0 <= Notional(Step(cfg, shadowMode, s, Act(w, op)).workers[w].e)
  {
    hide Decide, Conflicts, EntryMargin, IdsFresh, Notional;
    assert PhaseOk(s.workers[w]);
    EntryHasNotional(EntryOf(s.workers[w].sig, op));
  }

  /** Registering moves an entry from pending to the book. */
  lemma RegisterKeepsBound(cfg: Config, shadowMode: bool, m: Measure, limit: real, s: State, w: nat, op: Op)
    requires Sound(s) && NonNegative(m) && Bounded(m, limit, s) && op.Register?
    ensures Bounded(m, limit, Step(cfg, shadowMode, s, Act(w, op)))
  {
    var t := Step(cfg, shadowMode, s, Act(w, op));
    if w < |s.workers| && s.workers[w].Ordered? {
      var e := s.workers[w].e;
      var key := Opened(e.symbol, e.timeframe, s.workers[w].oid);
      assert key !in s.shared.book;
      var p := PositionOf(e).(isReal := op.isReal);
      SameWeight(m, PositionOf(e), op.isReal);
      assert PendingOf(Leaving(e.symbol)).None? && PendingOf(s.workers[w]) == Some(e);
      hide Sound, Weight, Weigh, Pending, PositionOf, Slack;
      AddedWeight(m, s.shared.book, key, p);
      PendingLoses(m, s, t, w, Leaving(e.symbol));
      SameSlack(m, s, t);
    } else {
      hide Sound, Weight, Weigh, Pending, PositionOf, Slack;
      SameBook(s.shared.book);
      ShrinkingKeepsBound(m, limit, s, t);
    }
  }

  lemma SameWeight(m: Measure, p: Position, isReal: bool)
    ensures Weight(m, p.(isReal := isReal)) == Weight(m, p)
  {
  }

  lemma OtherStepsShrink(cfg: Config, shadowMode: bool, s: Shared, p: Phase, op: Op)
    requires PhaseOk(p) && !op.CheckEntry? && !op.Register?
    ensures Shrunk(Local(cfg, shadowMode, s, p, op).0.book, s.book)
  {
    hide Decide, Conflicts, PositionOf, Reduce, EntryMargin;
    if op.Close? && p.Matched? {
      if IsFull(p.level) {
        RemovalShrinks(s.book, p.key);
      } else {
        ReduceShrinks(s.book, p.key, p.amount);
      }
    } else {
      assert Local(cfg, shadowMode, s, p, op).0.book == s.book;
    }
  }

  lemma OtherKeepsBound(cfg: Config, shadowMode: bool, m: Measure, limit: real, s: State, a: Action)
    requires Sound(s) && NonNegative(m) && Bounded(m, limit, s)
    requires a.Act? ==> !a.op.CheckEntry? && !a.op.Register?
    ensures Bounded(m, limit, Step(cfg, shadowMode, s, a))
  {
    hide Local, Bounded, Margin, IdsFresh;
    var t := Step(cfg, shadowMode, s, a);
    if a.Act? && a.w < |s.workers| {
      assert PhaseOk(s.workers[a.w]);
      OtherSteps(cfg, shadowMode, s.shared, s.workers[a.w], a.op);
      OtherStepsShrink(cfg, shadowMode, s.shared, s.workers[a.w], a.op);
    }
    ShrinkingKeepsBound(m, limit, s, t);
  }

  /** No balance update lets the cap exceed `limit`. */
  ghost predicate LimitedBy(cfg: Config, shadowMode: bool, m: Measure, limit: real, a: Action) {
    a.BalanceUpdate? ==> CapAt(cfg, shadowMode, a.balance, m) <= limit
  }

  /** Everything the bound needs of a state. */
  ghost predicate BoundInv(cfg: Config, shadowMode: bool, m: Measure, limit: real, s: State) {
    Sound(s) && Bounded(m, limit, s) && CapAt(cfg, shadowMode, s.shared.balance, m) <= limit
  }

  lemma BalanceStep(cfg: Config, shadowMode: bool, m: Measure, limit: real, s: State, a: Action)
    requires CapAt(cfg, shadowMode, s.shared.balance, m) <= limit && LimitedBy(cfg, shadowMode, m, limit, a)
    ensures CapAt(cfg, shadowMode, Step(cfg, shadowMode, s, a).shared.balance, m) <= limit
    ensures |Step(cfg, shadowMode, s, a).workers| == |s.workers|
  {
    hide CapAt, Decide, Conflicts, Reduce, PositionOf;
  }

  lemma BoundStep(cfg: Config, shadowMode: bool, m: Measure, limit: real, s: State, a: Action)
    requires BoundInv(cfg, shadowMode, m, limit, s) && MeasureOf(cfg, m) && LimitedBy(cfg, shadowMode, m, limit, a)
    ensures BoundInv(cfg, shadowMode, m, limit, Step(cfg, shadowMode, s, a))
    ensures |Step(cfg, shadowMode, s, a).workers| == |s.workers|
  {
    hide Step, Sound, Bounded, CapAt, LimitedBy;
    BalanceStep(cfg, shadowMode, m, limit, s, a);
    SoundStep(cfg, shadowMode, s, a);
    if a.Act? && a.op.CheckEntry? {
      CheckKeepsBound(cfg, shadowMode, m, limit, s, a.w, a.op);
    } else if a.Act? && a.op.Register? {
      RegisterKeepsBound(cfg, shadowMode, m, limit, s, a.w, a.op);
    } else {
      OtherKeepsBound(cfg, shadowMode, m, limit, s, a);
    }
  }

  /** Every worker idle, and the book below `limit` by the measure. */
  ghost predicate Start(s: State) {
    && 1 <= |s.workers|
    && (forall w :: 0 <= w < |s.workers| ==> s.workers[w].Idle?)
    && (forall k :: k in s.shared.book ==> s.shared.book[k].quantity > 0.0)
    && (forall k :: k in s.shared.book && k.Opened? ==> k.oid < s.shared.nextOid)
  }

  lemma StartIsSound(s: State)
    requires Start(s)
    ensures Sound(s) && 1 <= |s.workers|
  {
  }

  lemma StartIsBounded(cfg: Config, shadowMode: bool, m: Measure, limit: real, s: State)
    requires Start(s) && NonNegative(m) && Weigh(m, s.shared.book) <= limit
    requires CapAt(cfg, shadowMode, s.shared.balance, m) <= limit
    ensures BoundInv(cfg, shadowMode, m, limit, s)
  {
    PerEntryNonNegative(m);
    assert Pending(m, s) == map[];
    assert Total(Pending(m, s)) == 0.0;
    StartIsSound(s);
    hide Weigh, CapAt, PerEntry, Total, Times, Start, Sound;
    TimesUnits(PerEntry(m));
    TimesGrows(PerEntry(m), 0.0, (|s.workers| - 1) as real);
  }

  ghost predicate AllLimited(cfg: Config, shadowMode: bool, m: Measure, limit: real, actions: seq<Action>) {
    forall i :: 0 <= i < |actions| ==> LimitedBy(cfg, shadowMode, m, limit, actions[i])
  }

  lemma {:induction false} BoundedForever(
    cfg: Config, shadowMode: bool, m: Measure, limit: real, s: State, actions: seq<Action>)
    requires BoundInv(cfg, shadowMode, m, limit, s) && MeasureOf(cfg, m)
    requires AllLimited(cfg, shadowMode, m, limit, actions)
    ensures BoundInv(cfg, shadowMode, m, limit, Run(cfg, shadowMode, s, actions))
    ensures |Run(cfg, shadowMode, s, actions).workers| == |s.workers|
  {
    hide BoundInv, Step, LimitedBy, MeasureOf;
    if actions != [] {
      var n := |actions| - 1;
      BoundedForever(cfg, shadowMode, m, limit, s, actions[..n]);
      BoundStep(cfg, shadowMode, m, limit, Run(cfg, shadowMode, s, actions[..n]), actions[n]);
    }
  }

  /**
   Bounded overshoot of every cap. Whatever the interleaving of W workers, closes from outside and
   balance updates, a measure that starts within `limit` never exceeds it by more than what W - 1
   entries can weigh, `limit` being at least the cap under each balance in force.
   */
  lemma CapOvershootBounded(cfg: Config, shadowMode: bool, m: Measure, limit: real, s: State, actions: seq<Action>)
    requires Start(s) && MeasureOf(cfg, m) && Weigh(m, s.shared.book) <= limit
    requires CapAt(cfg, shadowMode, s.shared.balance, m) <= limit && AllLimited(cfg, shadowMode, m, limit, actions)
    ensures Weigh(m, Run(cfg, shadowMode, s, actions).shared.book) <= limit + Slack(m, s)
  {
    hide Run, Weigh, CapAt, Start, AllLimited, PerEntry, Sound, Pending, Times;
    var t := Run(cfg, shadowMode, s, actions);
    StartIsBounded(cfg, shadowMode, m, limit, s);
    BoundedForever(cfg, shadowMode, m, limit, s, actions);
    SameSlack(m, s, t);
    PendingNonNegative(m, t);
    hide Slack;
  }

  lemma PendingNonNegative(m: Measure, s: State)
    requires Sound(s) && NonNegative(m)
    ensures 0.0 <= Total(Pending(m, s))
  {
    hide Sound, Pending, PerEntry;
    PendingWeights(m, s);
    TotalMonotone(map[], Pending(m, s));
    assert Total<nat>(map[]) == 0.0;
  }

  // ---- The seven caps ----

  predicate NoBalanceUpdate(a: Action) {
    !a.BalanceUpdate?
  }

  /** Every cap of the check, each by `more` entries of the largest size. */
  ghost predicate WithinCapsAnd(cfg: Config, shadowMode: bool, balance: real, book: Book, more: int) {
    var caps, margin := cfg.Effective(shadowMode), HARD_MAX_NOTIONAL * more as real;
    && |book| <= caps.concurrent + more
    && |book| <= caps.total + more
    && (forall long :: |InDirection(book, long)| <= caps.sameDirection + more)
    && (forall tf :: |InTf(book, tf)| <= cfg.TfLimit(tf) + more)
    && (forall tf :: TfMargin(book, tf) <= PctOf(balance, cfg.TfExposure(tf)) + margin)
    && cfg.Correlated(TotalMargin(book)) <= PctOf(balance, cfg.corrRiskPct) + cfg.Correlated(margin)
    && TotalMargin(book) <= PctOf(balance, caps.marginPct) + margin
  }

  /** No more entries: the caps themselves. */
  lemma WithinCapsAndNone(cfg: Config, shadowMode: bool, balance: real, book: Book)
    ensures WithinCapsAnd(cfg, shadowMode, balance, book, 0) <==> WithinCaps(cfg, shadowMode, balance, book)
  {
    hide PctOf, TotalMargin, TfMargin, InDirection, InTf;
  }

  /** Each cap is a bound on one of the measures. */
  lemma MeasuresAreCaps(cfg: Config, shadowMode: bool, balance: real, book: Book, more: nat)
    requires 0.0 <= cfg.corrFactor
    requires forall m :: MeasureOf(cfg, m) ==>
                           Weigh(m, book) <= CapAt(cfg, shadowMode, balance, m) + Times(PerEntry(m), more as real)
    ensures WithinCapsAnd(cfg, shadowMode, balance, book, more)
  {
    hide Weigh, TotalMargin, TfMargin, InDirection, InTf, PctOf;
    WeighPositions(book);
    WeighMargins(book);
    WeighCorrelation(book, cfg.corrFactor);
    assert MeasureOf(cfg, Positions) && MeasureOf(cfg, Margins) && MeasureOf(cfg, Correlation(cfg.corrFactor));
    forall long
      ensures |InDirection(book, long)| <= cfg.Effective(shadowMode).sameDirection + more
    {
      WeighDirection(book, long);
      assert MeasureOf(cfg, Direction(long));
    }
    forall tf
      ensures |InTf(book, tf)| <= cfg.TfLimit(tf) + more
      ensures TfMargin(book, tf) <= PctOf(balance, cfg.TfExposure(tf)) + HARD_MAX_NOTIONAL * more as real
    {
      WeighTf(book, tf);
      WeighTfMargins(book, tf);
      assert MeasureOf(cfg, TfPositions(tf)) && MeasureOf(cfg, TfMargins(tf));
    }
  }

  lemma CapsAreMeasures(cfg: Config, shadowMode: bool, balance: real, book: Book, m: Measure)
    requires WithinCaps(cfg, shadowMode, balance, book) && MeasureOf(cfg, m)
    ensures Weigh(m, book) <= CapAt(cfg, shadowMode, balance, m)
  {
    hide Weigh, TotalMargin, TfMargin, InDirection, InTf, PctOf;
    match m
    case Positions => WeighPositions(book);
    case Direction(long) => WeighDirection(book, long);
    case TfPositions(tf) => WeighTf(book, tf);
    case Margins => WeighMargins(book);
    case TfMargins(tf) => WeighTfMargins(book, tf);
    case Correlation(factor) => WeighCorrelation(book, factor);
  }

  /**
   All seven caps, at a fixed balance: from a book within them, W workers never exceed any of the four
   counts by more than W - 1, nor a margin by more than 500 * (W - 1), correlated or not.
   */
  lemma BoundedOvershoot(cfg: Config, shadowMode: bool, s: State, actions: seq<Action>)
    requires Start(s) && 0.0 <= cfg.corrFactor && WithinCaps(cfg, shadowMode, s.shared.balance, s.shared.book)
    requires forall i :: 0 <= i < |actions| ==> NoBalanceUpdate(actions[i])
    ensures WithinCapsAnd(cfg, shadowMode, s.shared.balance, Run(cfg, shadowMode, s, actions).shared.book,
                          |s.workers| - 1)
  {
    hide *;
    var t := Run(cfg, shadowMode, s, actions);
    FirstWorker(s);
    forall m | MeasureOf(cfg, m)
      ensures Weigh(m, t.shared.book) <=
              CapAt(cfg, shadowMode, s.shared.balance, m) + Times(PerEntry(m), (|s.workers| - 1) as real)
    {
      MeasureBounded(cfg, shadowMode, m, s, actions);
    }
    MeasuresAreCaps(cfg, shadowMode, s.shared.balance, t.shared.book, |s.workers| - 1);
  }

  lemma FirstWorker(s: State)
    requires Start(s)
    ensures 1 <= |s.workers|
  {
  }

  lemma MeasureBounded(cfg: Config, shadowMode: bool, m: Measure, s: State, actions: seq<Action>)
    requires Start(s) && MeasureOf(cfg, m) && WithinCaps(cfg, shadowMode, s.shared.balance, s.shared.book)
    requires forall i :: 0 <= i < |actions| ==> NoBalanceUpdate(actions[i])
    ensures Weigh(m, Run(cfg, shadowMode, s, actions).shared.book) <=
            CapAt(cfg, shadowMode, s.shared.balance, m) + Times(PerEntry(m), (|s.workers| - 1) as real)
  {
    var limit := CapAt(cfg, shadowMode, s.shared.balance, m);
    hide Run, Start, WithinCaps, Weigh, CapAt, MeasureOf, PerEntry, Times;
    CapsAreMeasures(cfg, shadowMode, s.shared.balance, s.shared.book, m);
    assert AllLimited(cfg, shadowMode, m, limit, actions);
    CapOvershootBounded(cfg, shadowMode, m, limit, s, actions);
  }

  // ---- The bounds are attained: W workers that all check before any of them registers ----

  const ONE_POSITION := Config(
                          Caps(1, 1, 1, 100.0), Caps(1, 1, 1, 100.0),
                          map["1" := 1], map["1" := 100.0], 1.0, 100.0, 60)

  function SymbolOf(w: nat): string {
    seq(w + 1, _ => 'S')
  }

  function BuySignal(w: nat): Signal {
    EntrySignal(SymbolOf(w), "1", "buy", 1.0)
  }

  function FullEntry(w: nat): Entry {
    Entry(SymbolOf(w), "1", 1.0, 500.0, 1, 0.0, "long")
  }

  function IdleStart(workers: nat): State {
    State(seq(workers, _ => Idle), Shared({}, map[], 0, 500.0))
  }

  function CheckActions(n: nat): seq<Action> {
    if n == 0 then [] else
    CheckActions(n - 1) + [Act(n - 1, Take(BuySignal(n - 1)))] + [Act(n - 1, LockAcquired)]
    + [Act(n - 1, CheckEntry(500.0, 1, 0.0, false))] + [Act(n - 1, OrderAccepted)]
  }

  function RegisterActions(workers: nat, n: nat): seq<Action> {
    if n == 0 then CheckActions(workers) else RegisterActions(workers, n - 1) + [Act(n - 1, Register(false))]
  }

  lemma RunSnoc(cfg: Config, shadowMode: bool, s: State, actions: seq<Action>, a: Action)
    ensures Run(cfg, shadowMode, s, actions + [a]) == Step(cfg, shadowMode, Run(cfg, shadowMode, s, actions), a)
  {
    assert (actions + [a])[..|actions|] == actions;
  }

  lemma EmptyBookAdmits(w: nat)
    ensures Decide(ONE_POSITION, false, false, 500.0, map[], FullEntry(w)).Allowed?
  {
    var book: Book := map[];
    assert InDirection(book, true) == {} && InTf(book, "1") == {};
    assert MarginOf(book, {}) == 0.0;
  }

  /** After the first n workers have checked: each holds an accepted order, nothing is registered. */
  ghost predicate Checked(workers: nat, n: nat, s: State) {
    && |s.workers| == workers
    && (forall w :: 0 <= w < workers ==> s.workers[w] == if w < n then Ordered(FullEntry(w), w) else Idle)
    && (forall x :: x in s.shared.locked ==> |x| <= n)
    && s.shared.book == map[] && s.shared.nextOid == n && s.shared.balance == 500.0
  }

  function Moved(s: State, w: nat, p: Phase): State
    requires w < |s.workers|
  {
    s.(workers := s.workers[w := p])
  }

  lemma TakeIs(s: State, n: nat)
    requires n < |s.workers| && s.workers[n] == Idle
    ensures Step(ONE_POSITION, false, s, Act(n, Take(BuySignal(n)))) == Moved(s, n, Waiting(BuySignal(n)))
  {
    hide Decide, Conflicts;
  }

  lemma LockIs(s: State, n: nat)
    requires n < |s.workers| && s.workers[n] == Waiting(BuySignal(n)) && SymbolOf(n) !in s.shared.locked
    ensures Step(ONE_POSITION, false, s, Act(n, LockAcquired)) ==
            Moved(s, n, Holding(BuySignal(n))).(shared := s.shared.(locked := s.shared.locked + {SymbolOf(n)}))
  {
    hide Decide, Conflicts, SymbolOf;
  }

  const CHECK := CheckEntry(500.0, 1, 0.0, false)

  lemma CheckIs(s: State, n: nat)
    requires n < |s.workers| && s.workers[n] == Holding(BuySignal(n))
    requires s.shared.book == map[] && s.shared.balance == 500.0
    ensures Step(ONE_POSITION, false, s, Act(n, CHECK)) == Moved(s, n, Admitted(FullEntry(n)))
  {
    EmptyBookAdmits(n);
    hide Decide, SymbolOf;
    assert EntryOf(BuySignal(n), CHECK) == FullEntry(n);
  }

  lemma OrderIs(s: State, n: nat)
    requires n < |s.workers| && s.workers[n] == Admitted(FullEntry(n))
    ensures Step(ONE_POSITION, false, s, Act(n, OrderAccepted)) ==
            Moved(s, n, Ordered(FullEntry(n), s.shared.nextOid)).(shared := s.shared.(nextOid := s.shared.nextOid + 1))
  {
    hide Decide, Conflicts, FullEntry;
  }

  /** One more worker checks. */
  lemma CheckOne(workers: nat, n: nat, s: State)
    requires n < workers && Checked(workers, n, s)
    ensures Checked(workers, n + 1, FourSteps(s, n))
  {
    var s1 := Moved(s, n, Waiting(BuySignal(n)));
    var s2 := Moved(s1, n, Holding(BuySignal(n))).(shared := s.shared.(locked := s.shared.locked + {SymbolOf(n)}));
    var s3 := Moved(s2, n, Admitted(FullEntry(n)));
    assert |SymbolOf(n)| == n + 1;
    hide Step, FullEntry, BuySignal, SymbolOf;
    TakeIs(s, n);
    LockIs(s1, n);
    CheckIs(s2, n);
    OrderIs(s3, n);
  }

  ghost function FourSteps(s: State, n: nat): State {
    var s1 := Step(ONE_POSITION, false, s, Act(n, Take(BuySignal(n))));
    var s2 := Step(ONE_POSITION, false, s1, Act(n, LockAcquired));
    var s3 := Step(ONE_POSITION, false, s2, Act(n, CHECK));
    Step(ONE_POSITION, false, s3, Act(n, OrderAccepted))
  }

  lemma {:induction false} AllChecked(workers: nat, n: nat)
    requires n <= workers
    ensures Checked(workers, n, Run(ONE_POSITION, false, IdleStart(workers), CheckActions(n)))
  {
    hide *;
    if n == 0 {
      NoneChecked(workers);
    } else {
      AllChecked(workers, n - 1);
      CheckActionsAre(workers, n);
      CheckOne(workers, n - 1, Run(ONE_POSITION, false, IdleStart(workers), CheckActions(n - 1)));
    }
  }

  lemma NoneChecked(workers: nat)
    ensures Checked(workers, 0, Run(ONE_POSITION, false, IdleStart(workers), CheckActions(0)))
  {
    hide Step;
    assert Run(ONE_POSITION, false, IdleStart(workers), CheckActions(0)) == IdleStart(workers);
  }

  lemma CheckActionsAre(workers: nat, n: nat)
    requires 0 < n
    ensures Run(ONE_POSITION, false, IdleStart(workers), CheckActions(n)) ==
            FourSteps(Run(ONE_POSITION, false, IdleStart(workers), CheckActions(n - 1)), n - 1)
  {
    hide Run, Step;
    var s, a := IdleStart(workers), CheckActions(n - 1);
    var a0 := a + [Act(n - 1, Take(BuySignal(n - 1)))];
    var a1 := a0 + [Act(n - 1, LockAcquired)];
    var a2 := a1 + [Act(n - 1, CHECK)];
    RunSnoc(ONE_POSITION, false, s, a, Act(n - 1, Take(BuySignal(n - 1))));
    RunSnoc(ONE_POSITION, false, s, a0, Act(n - 1, LockAcquired));
    RunSnoc(ONE_POSITION, false, s, a1, Act(n - 1, CHECK));
    RunSnoc(ONE_POSITION, false, s, a2, Act(n - 1, OrderAccepted));
  }

  /** The first n of the checked entries are registered: n long positions of margin 500 on timeframe "1". */
  ghost predicate Registered(workers: nat, n: nat, s: State) {
    && |s.workers| == workers
    && (forall w :: n <= w < workers ==> s.workers[w] == Ordered(FullEntry(w), w))
    && (forall k :: k in s.shared.book ==> k.Opened? && k.oid < n)
    && AllAlike(s.shared.book, n)
  }

  /** Every figure of the check is that of n entries of the largest size. */
  ghost predicate AllAlike(book: Book, n: nat) {
    && |book| == n && |InDirection(book, true)| == n && |InTf(book, "1")| == n
    && TotalMargin(book) == HARD_MAX_NOTIONAL * n as real && TfMargin(book, "1") == HARD_MAX_NOTIONAL * n as real
  }

  lemma NoneAlike()
    ensures AllAlike(map[], 0)
  {
    var book: Book := map[];
    assert InDirection(book, true) == {} && InTf(book, "1") == {};
    assert MarginOf(book, {}) == 0.0;
  }

  lemma {:induction false} AllRegistered(workers: nat, n: nat)
    requires n <= workers
    ensures Registered(workers, n, Run(ONE_POSITION, false, IdleStart(workers), RegisterActions(workers, n)))
  {
    hide AllAlike, Run;
    if n == 0 {
      AllChecked(workers, workers);
      NoneAlike();
      hide CheckActions;
    } else {
      AllRegistered(workers, n - 1);
      var before := RegisterActions(workers, n - 1);
      RunSnoc(ONE_POSITION, false, IdleStart(workers), before, Act(n - 1, Register(false)));
      RegisterOne(workers, n, Run(ONE_POSITION, false, IdleStart(workers), before));
      hide Registered, IdleStart, Step;
    }
  }

  lemma RegisterOne(workers: nat, n: nat, s: State)
    requires 0 < n <= workers && Registered(workers, n - 1, s)
    ensures Registered(workers, n, Step(ONE_POSITION, false, s, Act(n - 1, Register(false))))
  {
    hide AllAlike;
    var e := FullEntry(n - 1);
    OneMoreAlike(s.shared.book, n, Opened(e.symbol, e.timeframe, n - 1), PositionOf(e));
  }

  lemma OneMoreAlike(book: Book, n: nat, k: PosKey, p: Position)
    requires 0 < n && AllAlike(book, n - 1) && k !in book
    requires p.side == "long" && p.timeframe == "1" && Margin(p) == 500.0
    ensures AllAlike(book[k := p], n)
  {
    hide InDirection, InTf, TotalMargin, TfMargin, Margin;
    AddedTotal(book, k, p);
    AddedDirection(book, k, p, true);
    AddedTf(book, k, p, "1");
  }

  /**
   The overshoot is real and exact. With every cap set to one position and every margin cap to 500,
   some interleaving of W workers ends with each of them exceeded by exactly W - 1 entries.
   */
  lemma OvershootAttained(workers: nat)
    requires 1 <= workers
    ensures Start(IdleStart(workers)) && WithinCaps(ONE_POSITION, false, 500.0, IdleStart(workers).shared.book)
    ensures forall i :: 0 <= i < |RegisterActions(workers, workers)| ==>
                          NoBalanceUpdate(RegisterActions(workers, workers)[i])
    ensures AllAlike(Run(ONE_POSITION, false, IdleStart(workers), RegisterActions(workers, workers)).shared.book,
                     workers)
    ensures var caps, more := ONE_POSITION.Effective(false), HARD_MAX_NOTIONAL * (workers - 1) as real;
            && workers == caps.concurrent + workers - 1 == caps.total + workers - 1 == caps.sameDirection + workers - 1
            && workers == ONE_POSITION.TfLimit("1") + workers - 1
            && HARD_MAX_NOTIONAL * workers as real == PctOf(500.0, caps.marginPct) + more
            && HARD_MAX_NOTIONAL * workers as real == PctOf(500.0, ONE_POSITION.TfExposure("1")) + more
            && ONE_POSITION.Correlated(HARD_MAX_NOTIONAL * workers as real)
               == PctOf(500.0, ONE_POSITION.corrRiskPct) + ONE_POSITION.Correlated(more)
  {
    hide Run, AllAlike;
    AllRegistered(workers, workers);
    RegisterActionsAct(workers, workers);
    EmptyBookWithin();
    hide RegisterActions, WithinCaps;
  }

  lemma EmptyBookWithin()
    ensures WithinCaps(ONE_POSITION, false, 500.0, map[])
  {
    var book: Book := map[];
    forall long
      ensures InDirection(book, long) == {}
    {
    }
    forall tf
      ensures InTf(book, tf) == {} && 0.0 <= ONE_POSITION.TfExposure(tf)
    {
    }
    assert MarginOf(book, {}) == 0.0;
  }

  lemma {:induction false} NoBalanceUpdates(n: nat, i: nat)
    requires i < |CheckActions(n)|
    ensures CheckActions(n)[i].Act?
  {
    if i < |CheckActions(n)| - 4 {
      NoBalanceUpdates(n - 1, i);
    }
  }

  lemma {:induction false} RegisterActionsAct(workers: nat, n: nat)
    ensures forall i :: 0 <= i < |RegisterActions(workers, n)| ==> RegisterActions(workers, n)[i].Act?
  {
    if n == 0 {
      forall i | 0 <= i < |CheckActions(workers)|
        ensures CheckActions(workers)[i].Act?
      {
        NoBalanceUpdates(workers, i);
      }
    } else {
      RegisterActionsAct(workers, n - 1);
    }
  }

  /** With this many workers all seven caps hold in every run, whatever the configuration and the start. */
  ghost predicate NeverOvershoots(workers: nat) {
    forall cfg: Config, shadowMode: bool, s: State, actions: seq<Action> ::
      |s.workers| == workers && Start(s) && 0.0 <= cfg.corrFactor && AllKeepBalance(actions)
      && WithinCaps(cfg, shadowMode, s.shared.balance, s.shared.book) ==>
        WithinCaps(cfg, shadowMode, s.shared.balance, Run(cfg, shadowMode, s, actions).shared.book)
  }

  ghost predicate AllKeepBalance(actions: seq<Action>) {
    forall i :: 0 <= i < |actions| ==> NoBalanceUpdate(actions[i])
  }

  /** Two critical sections instead of one cost nothing exactly for a single worker. */
  lemma OvershootIff(workers: nat)
    requires 1 <= workers
    ensures NeverOvershoots(workers) <==> workers == 1
  {
    hide Run, WithinCaps, WithinCapsAnd, Start, NoBalanceUpdate;
    if workers == 1 {
      forall cfg: Config, shadowMode: bool, s: State, actions: seq<Action> |
        |s.workers| == workers && Start(s) && 0.0 <= cfg.corrFactor && AllKeepBalance(actions)
        && WithinCaps(cfg, shadowMode, s.shared.balance, s.shared.book)
        ensures WithinCaps(cfg, shadowMode, s.shared.balance, Run(cfg, shadowMode, s, actions).shared.book)
      {
        BoundedOvershoot(cfg, shadowMode, s, actions);
        WithinCapsAndNone(cfg, shadowMode, s.shared.balance, Run(cfg, shadowMode, s, actions).shared.book);
      }
    } else {
      OvershootAttained(workers);
      TooMany(Run(ONE_POSITION, false, IdleStart(workers), RegisterActions(workers, workers)).shared.book, workers);
      hide RegisterActions;
      assert |IdleStart(workers).workers| == workers;
    }
  }

  lemma TooMany(book: Book, n: nat)
    requires AllAlike(book, n) && 1 < n
    ensures !WithinCaps(ONE_POSITION, false, 500.0, book)
  {
    hide InDirection, InTf, TotalMargin, TfMargin;
  }
}
