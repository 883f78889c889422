/**
 The portfolio entry check: what it decides, what its counters count, and why the
 caps it tests stay true for as long as positions are only added through it.
 */
module PortfolioRisk {
  import opened FiniteSums
  import RiskCalendar

  const HARD_MAX_NOTIONAL := 500.0
  const DEFAULT_TF_LIMIT := 10
  const DEFAULT_TF_EXPOSURE := 30.0

  /** A leverage the exchange accepts. */
  type Leverage = x: int | 1 <= x witness 1

  /** `SYMBOL_TF_OID` for positions the engine opened, `SYMBOL_SIDE_ext` for imported ones. */
  datatype PosKey = Opened(symbol: string, timeframe: string, oid: nat) | External(symbol: string, side: string)

  datatype Position = Position(
    symbol: string, timeframe: string, side: string,
    entryPrice: real, quantity: real, leverage: Leverage,
    slPrice: real, tp1Price: real, tier: string, strategy: string,
    openedAt: int, isReal: bool, exchange: string, marketType: string)

  type Book = map<PosKey, Position>

  /** An entry as the engine presents it to the check. */
  datatype Entry = Entry(
    symbol: string, timeframe: string, price: real, quantity: real,
    leverage: Leverage, slPrice: real, side: string)

  datatype Caps = Caps(concurrent: int, sameDirection: int, total: int, marginPct: real)

  /** The configuration: strict caps for live trading, relaxed ones for shadow mode. */
  datatype Config = Config(
    live: Caps, shadow: Caps,
    perTf: map<string, int>, tfExposurePct: map<string, real>,
    corrFactor: real, corrRiskPct: real, cooldownMinutes: int)
  {
    function Effective(shadowMode: bool): Caps {
      if shadowMode then shadow else live
    }

    function TfLimit(tf: string): int {
      if tf in perTf then perTf[tf] else DEFAULT_TF_LIMIT
    }

    function TfExposure(tf: string): real {
      if tf in tfExposurePct then tfExposurePct[tf] else DEFAULT_TF_EXPOSURE
    }

    function Correlated(margin: real): real {
      margin * corrFactor
    }
  }

  datatype Check =
    | HardNotionalCap | SlBeyondLiquidation | CircuitBreaker
    | MaxConcurrent | MaxSameDirection | MaxPositions
    | TfPositionLimit | TfExposureCap | CorrelationRisk | MarginLimit

  datatype Decision = Allowed | Blocked(check: Check)

  predicate IsLong(side: string) {
    side == "long" || side == "buy"
  }

  /** The side a close signal's direction stands for. */
  function HoldSide(direction: string): string {
    if direction == "bull" then "long" else "short"
  }

  function Abs(x: real): (r: real)
    ensures r >= 0.0 && (r == x || r == -x)
  {
    if x < 0.0 then -x else x
  }

  /** |entry * quantity| / leverage. */
  function MarginFor(entryPrice: real, quantity: real, leverage: Leverage): (r: real)
    ensures r >= 0.0
  {
    Abs(entryPrice * quantity) / leverage as real
  }

  function Margin(p: Position): (r: real)
    ensures r >= 0.0
  {
    MarginFor(p.entryPrice, p.quantity, p.leverage)
  }

  function Notional(e: Entry): real {
    e.price * e.quantity
  }

  function EntryMargin(e: Entry): real {
    Notional(e) / e.leverage as real
  }

  function TfOf(e: Entry): string {
    if e.timeframe == "" then "unknown" else e.timeframe
  }

  /** The position an allowed entry becomes; the engine registers the normalised timeframe. */
  function PositionOf(e: Entry): Position {
    Position(e.symbol, TfOf(e), e.side, e.price, e.quantity, e.leverage, e.slPrice, 0.0, "", "unknown", 0, false,
             "bitget", "futures")
  }

  // ---- What the scans over the book count ----

  ghost function MarginOf(book: Book, keys: set<PosKey>): real
    requires keys <= book.Keys
  {
    Total(map k | k in keys :: Margin(book[k]))
  }

  ghost function InTf(book: Book, tf: string): set<PosKey> {
    set k | k in book && book[k].timeframe == tf
  }

  ghost function InDirection(book: Book, long: bool): set<PosKey> {
    set k | k in book && IsLong(book[k].side) == long
  }

  ghost function TotalMargin(book: Book): (r: real) {
    MarginOf(book, book.Keys)
  }

  ghost function TfMargin(book: Book, tf: string): real {
    MarginOf(book, InTf(book, tf))
  }

  lemma MarginOfInsert(book: Book, keys: set<PosKey>, k: PosKey)
    requires keys <= book.Keys && k in book && k !in keys
    ensures MarginOf(book, keys + {k}) == MarginOf(book, keys) + Margin(book[k])
  {
    var m := map j | j in keys :: Margin(book[j]);
    assert (map j | j in keys + {k} :: Margin(book[j])) == m[k := Margin(book[k])];
    TotalInsert(m, k, Margin(book[k]));
  }

  // ---- The decision ----

  /** The stop loss lies beyond the estimated liquidation price. */
  predicate SlPastLiquidation(e: Entry) {
    e.slPrice > 0.0 &&
    if IsLong(e.side)
    then e.slPrice < e.price * (1.0 - 0.9 / e.leverage as real)
    else e.slPrice > e.price * (1.0 + 0.9 / e.leverage as real)
  }

  /** That is: hitting the stop would lose more than nine tenths of the entry's margin. */
  lemma SlGuardIsMarginLoss(e: Entry)
    requires e.quantity > 0.0 && e.slPrice > 0.0
    ensures SlPastLiquidation(e) <==>
            (if IsLong(e.side) then e.price - e.slPrice else e.slPrice - e.price) * e.quantity > 0.9 * EntryMargin(e)
  {
    var l := e.leverage as real;
    var share := e.price * (0.9 / l);
    assert share * l == 0.9 * e.price;
    assert share * e.quantity * l == 0.9 * Notional(e);
    assert EntryMargin(e) * l == Notional(e);
    SameQuotient(share * e.quantity, 0.9 * EntryMargin(e), l);
    var loss := if IsLong(e.side) then e.price - e.slPrice else e.slPrice - e.price;
    assert SlPastLiquidation(e) <==> loss > share;
    ScaledOrder(loss, share, e.quantity);
  }

  lemma SameQuotient(a: real, b: real, l: real)
    requires l >= 1.0 && a * l == b * l
    ensures a == b
  {
  }

  lemma ScaledOrder(a: real, b: real, q: real)
    requires q > 0.0
    ensures a > b <==> a * q > b * q
  {
    assert (a - b) * q == a * q - b * q;
  }

  function PctOf(balance: real, pct: real): real {
    balance * (pct / 100.0)
  }

  /** The verdict on an entry: the first failing check in the order the code makes them. */
  ghost function Decide(cfg: Config, shadowMode: bool, breakerHolds: bool, balance: real, book: Book,
                        e: Entry): Decision {
    var caps := cfg.Effective(shadowMode);
    var tf := TfOf(e);
    if Notional(e) > HARD_MAX_NOTIONAL then Blocked(HardNotionalCap)
    else if SlPastLiquidation(e) then Blocked(SlBeyondLiquidation)
    else if breakerHolds then Blocked(CircuitBreaker)
    else if |book| >= caps.concurrent then Blocked(MaxConcurrent)
    else if |InDirection(book, IsLong(e.side))| >= caps.sameDirection then Blocked(MaxSameDirection)
    else if |book| >= caps.total then Blocked(MaxPositions)
    else if |InTf(book, tf)| >= cfg.TfLimit(tf) then Blocked(TfPositionLimit)
    else if TfMargin(book, tf) + EntryMargin(e) > PctOf(balance, cfg.TfExposure(tf)) then Blocked(TfExposureCap)
    else if cfg.Correlated(TotalMargin(book) + EntryMargin(e)) > PctOf(balance,
                                                                       cfg.corrRiskPct) then Blocked(CorrelationRisk)
    else if TotalMargin(book) + EntryMargin(e) > PctOf(balance, caps.marginPct) then Blocked(MarginLimit)
    else Allowed
  }

  // ---- The caps, stated without reference to the order of the checks ----

  ghost predicate WithinCaps(cfg: Config, shadowMode: bool, balance: real, book: Book) {
    var caps := cfg.Effective(shadowMode);
    && |book| <= caps.concurrent
    && |book| <= caps.total
    && (forall long :: |InDirection(book, long)| <= caps.sameDirection)
    && (forall tf :: |InTf(book, tf)| <= cfg.TfLimit(tf))
    && (forall tf :: TfMargin(book, tf) <= PctOf(balance, cfg.TfExposure(tf)))
    && cfg.Correlated(TotalMargin(book)) <= PctOf(balance, cfg.corrRiskPct)
    && TotalMargin(book) <= PctOf(balance, caps.marginPct)
  }

  // ---- What the book's figures become when a fresh position is added ----

  lemma MarginOfSame(book: Book, k: PosKey, p: Position, keys: set<PosKey>)
    requires keys <= book.Keys && k !in keys
    ensures MarginOf(book[k := p], keys) == MarginOf(book, keys)
  {
    assert (map j | j in keys :: Margin(book[k := p][j])) == (map j | j in keys :: Margin(book[j]));
  }

  lemma AddedTotal(book: Book, k: PosKey, p: Position)
    requires k !in book
    ensures TotalMargin(book[k := p]) == TotalMargin(book) + Margin(p)
  {
    assert book[k := p].Keys == book.Keys + {k};
    MarginOfInsert(book[k := p], book.Keys, k);
    MarginOfSame(book, k, p, book.Keys);
  }

  lemma AddedDirection(book: Book, k: PosKey, p: Position, long: bool)
    requires k !in book
    ensures |InDirection(book[k := p], long)| == |InDirection(book, long)| + if IsLong(p.side) == long then 1 else 0
  {
    assert InDirection(book[k := p], long) == InDirection(book, long) + if IsLong(p.side) == long then {k} else {};
  }

  lemma InTfAdded(book: Book, k: PosKey, p: Position, tf: string)
    requires k !in book
    ensures InTf(book[k := p], tf) == if p.timeframe == tf then InTf(book, tf) + {k} else InTf(book, tf)
  {
  }

  lemma AddedTf(book: Book, k: PosKey, p: Position, tf: string)
    requires k !in book
    ensures |InTf(book[k := p], tf)| == |InTf(book, tf)| + if p.timeframe == tf then 1 else 0
    ensures TfMargin(book[k := p], tf) == TfMargin(book, tf) + if p.timeframe == tf then Margin(p) else 0.0
  {
    hide Margin, MarginOf;
    InTfAdded(book, k, p, tf);
    MarginOfSame(book, k, p, InTf(book, tf));
    if p.timeframe == tf {
      MarginOfInsert(book[k := p], InTf(book, tf), k);
    }
  }

  lemma EntryMarginIs(e: Entry)
    requires Notional(e) >= 0.0
    ensures Margin(PositionOf(e)) == EntryMargin(e)
  {
  }

  /**
   The check is exact. From a book within its caps, an entry is allowed if and only if it
   passes the three per-entry guards and the book with the new position is within its caps too.
   */
  lemma AllowedExactly(cfg: Config, shadowMode: bool, breakerHolds: bool, balance: real, book: Book, e: Entry,
                       k: PosKey)
    requires WithinCaps(cfg, shadowMode, balance, book)
    requires k !in book && Notional(e) >= 0.0
    ensures Decide(cfg, shadowMode, breakerHolds, balance, book, e).Allowed? <==>
            && Notional(e) <= HARD_MAX_NOTIONAL && !SlPastLiquidation(e) && !breakerHolds
            && WithinCaps(cfg, shadowMode, balance, book[k := PositionOf(e)])
  {
    hide WithinCaps, Decide;
    if Decide(cfg, shadowMode, breakerHolds, balance, book, e).Allowed? {
      AllowedKeepsCaps(cfg, shadowMode, breakerHolds, balance, book, e, k);
    }
    if WithinCaps(cfg, shadowMode, balance, book[k := PositionOf(e)]) {
      CapsAllow(cfg, shadowMode, breakerHolds, balance, book, e, k);
    }
  }

  lemma AllowedKeepsCaps(cfg: Config, shadowMode: bool, breakerHolds: bool, balance: real, book: Book, e: Entry,
                         k: PosKey)
    requires WithinCaps(cfg, shadowMode, balance, book) && k !in book && Notional(e) >= 0.0
    requires Decide(cfg, shadowMode, breakerHolds, balance, book, e).Allowed?
    ensures Notional(e) <= HARD_MAX_NOTIONAL && !SlPastLiquidation(e) && !breakerHolds
    ensures WithinCaps(cfg, shadowMode, balance, book[k := PositionOf(e)])
  {
    hide PctOf, Config.Correlated, Notional, Margin, EntryMargin, MarginOf, InTf, InDirection, SlPastLiquidation;
    var p := PositionOf(e);
    EntryMarginIs(e);
    var after := book[k := p];
    AddedTotal(book, k, p);
    forall long
      ensures |InDirection(after, long)| <= cfg.Effective(shadowMode).sameDirection
    {
      AddedDirection(book, k, p, long);
    }
    forall tf
      ensures |InTf(after, tf)| <= cfg.TfLimit(tf)
      ensures TfMargin(after, tf) <= PctOf(balance, cfg.TfExposure(tf))
    {
      AddedTf(book, k, p, tf);
    }
  }

  lemma CapsAllow(cfg: Config, shadowMode: bool, breakerHolds: bool, balance: real, book: Book, e: Entry, k: PosKey)
    requires k !in book && Notional(e) >= 0.0 && WithinCaps(cfg, shadowMode, balance, book[k := PositionOf(e)])
    ensures Decide(cfg, shadowMode, breakerHolds, balance, book, e).Allowed? <==>
            Notional(e) <= HARD_MAX_NOTIONAL && !SlPastLiquidation(e) && !breakerHolds
  {
    hide PctOf, Config.Correlated, Notional, Margin, EntryMargin, MarginOf, InTf, InDirection, SlPastLiquidation;
    var p := PositionOf(e);
    EntryMarginIs(e);
    AddedTotal(book, k, p);
    AddedDirection(book, k, p, IsLong(e.side));
    AddedTf(book, k, p, TfOf(e));
  }

  // ---- The check on the configuration's own fields ----

  /** The caps of the mode: those of live trading never apply in shadow mode, nor the other way round. */
  function CapsOf(cfg: Config, shadowMode: bool): Caps {
    match shadowMode
    case false => cfg.live
    case true => cfg.shadow
  }

  function PerTf(cfg: Config, tf: string): int {
    if tf !in cfg.perTf then 10 else cfg.perTf[tf]
  }

  function Percent(balance: real, pct: real): real {
    balance * pct / 100.0
  }

  /** The margin a timeframe may take, 30% of the balance unless configured. */
  function TfShare(cfg: Config, balance: real, tf: string): real {
    Percent(balance, if tf !in cfg.tfExposurePct then 30.0 else cfg.tfExposurePct[tf])
  }

  function Together(cfg: Config, margin: real): real {
    cfg.corrFactor * margin
  }

  /** The positions of one direction, "buy" counting as long and every other side but "long" as short. */
  ghost function Sided(book: Book, long: bool): set<PosKey> {
    set k | k in book && (book[k].side == "long" || book[k].side == "buy") == long
  }

  ghost function Framed(book: Book, tf: string): set<PosKey> {
    set k | k in book && book[k].timeframe == tf
  }

  /** The stop lies further from the price than nine tenths of it over the leverage. */
  predicate StopTooFar(e: Entry) {
    var reach := 0.9 / e.leverage as real * e.price;
    e.slPrice > 0.0 && if e.side == "long" || e.side == "buy" then e.price - e.slPrice > reach
    else e.slPrice - e.price > reach
  }

  /** Each position's margin is its value divided by its leverage, whatever the sign of the value. */
  lemma MarginIs(p: Position)
    ensures Margin(p) * p.leverage as real == if p.entryPrice * p.quantity < 0.0 then -(p.entryPrice * p.quantity)
                                              else p.entryPrice * p.quantity
  {
  }

  /** What one test of the check objects to, in whatever order the tests are made. */
  ghost predicate Objects(c: Check, cfg: Config, shadowMode: bool, breakerHolds: bool, balance: real, book: Book,
                          e: Entry) {
    var caps := CapsOf(cfg, shadowMode);
    var tf := if e.timeframe == "" then "unknown" else e.timeframe;
    var long := e.side == "long" || e.side == "buy";
    match c
    case HardNotionalCap => e.price * e.quantity > 500.0
    case SlBeyondLiquidation => StopTooFar(e)
    case CircuitBreaker => breakerHolds
    case MaxConcurrent => caps.concurrent <= |book|
    case MaxSameDirection => caps.sameDirection <= |Sided(book, long)|
    case MaxPositions => caps.total <= |book|
    case TfPositionLimit => PerTf(cfg, tf) <= |Framed(book, tf)|
    case TfExposureCap => TfMargin(book, tf) + EntryMargin(e) > TfShare(cfg, balance, tf)
    case CorrelationRisk => Together(cfg, TotalMargin(book) + EntryMargin(e)) > Percent(balance, cfg.corrRiskPct)
    case MarginLimit => TotalMargin(book) + EntryMargin(e) > Percent(balance, caps.marginPct)
  }

  /** The order of the tests. */
  function Turn(c: Check): nat {
    match c
    case HardNotionalCap => 0
    case SlBeyondLiquidation => 1
    case CircuitBreaker => 2
    case MaxConcurrent => 3
    case MaxSameDirection => 4
    case MaxPositions => 5
    case TfPositionLimit => 6
    case TfExposureCap => 7
    case CorrelationRisk => 8
    case MarginLimit => 9
  }

  /** An entry is blocked by the first test in turn that objects to it, and allowed exactly when none does. */
  lemma FirstObjectionBlocks(cfg: Config, shadowMode: bool, breakerHolds: bool, balance: real, book: Book, e: Entry)
    ensures var d := Decide(cfg, shadowMode, breakerHolds, balance, book, e);
            && (d.Allowed? <==> forall c :: !Objects(c, cfg, shadowMode, breakerHolds, balance, book, e))
            && (d.Blocked? ==>
                  && Objects(d.check, cfg, shadowMode, breakerHolds, balance, book, e)
                  && forall c :: Turn(c) < Turn(d.check) ==>
                                   !Objects(c, cfg, shadowMode, breakerHolds, balance, book, e))
  {
    TestsAre(cfg, shadowMode, breakerHolds, balance, book, e);
    MarginTestsAre(cfg, shadowMode, breakerHolds, balance, book, e);
    hide Objects, InDirection, InTf, TotalMargin, TfMargin, SlPastLiquidation, PctOf, Notional, EntryMargin,
      Config.Effective, Config.TfLimit, Config.TfExposure, Config.Correlated, TfOf, IsLong;
    forall c
      ensures Decide(cfg, shadowMode, breakerHolds, balance, book, e).Allowed? ==>
                !Objects(c, cfg, shadowMode, breakerHolds, balance, book, e)
    {
      match c
      case MarginLimit =>
      case _ =>
    }
  }

  /** Each test as the code makes it. */
  lemma TestsAre(cfg: Config, shadowMode: bool, breakerHolds: bool, balance: real, book: Book, e: Entry)
    ensures var caps, tf := cfg.Effective(shadowMode), TfOf(e);
            && (Objects(HardNotionalCap, cfg, shadowMode, breakerHolds, balance, book, e) <==>
                Notional(e) > HARD_MAX_NOTIONAL)
            && (Objects(SlBeyondLiquidation, cfg, shadowMode, breakerHolds, balance, book, e) <==> SlPastLiquidation(e))
            && (Objects(CircuitBreaker, cfg, shadowMode, breakerHolds, balance, book, e) <==> breakerHolds)
            && (Objects(MaxConcurrent, cfg, shadowMode, breakerHolds, balance, book, e) <==> |book| >= caps.concurrent)
            && (Objects(MaxSameDirection, cfg, shadowMode, breakerHolds, balance, book, e) <==>
                |InDirection(book, IsLong(e.side))| >= caps.sameDirection)
            && (Objects(MaxPositions, cfg, shadowMode, breakerHolds, balance, book, e) <==> |book| >= caps.total)
            && (Objects(TfPositionLimit, cfg, shadowMode, breakerHolds, balance, book, e) <==>
                |InTf(book, tf)| >= cfg.TfLimit(tf))
  {
    ScansAre(book, IsLong(e.side), TfOf(e));
    SlTestIs(e);
    hide InDirection, InTf, Sided, Framed, SlPastLiquidation, StopTooFar, TotalMargin, TfMargin, Percent, Together,
      TfShare;
  }

  lemma MarginTestsAre(cfg: Config, shadowMode: bool, breakerHolds: bool, balance: real, book: Book, e: Entry)
    ensures var caps, tf := cfg.Effective(shadowMode), TfOf(e);
            && (Objects(TfExposureCap, cfg, shadowMode, breakerHolds, balance, book, e) <==>
                TfMargin(book, tf) + EntryMargin(e) > PctOf(balance, cfg.TfExposure(tf)))
            && (Objects(CorrelationRisk, cfg, shadowMode, breakerHolds, balance, book, e) <==>
                cfg.Correlated(TotalMargin(book) + EntryMargin(e)) > PctOf(balance, cfg.corrRiskPct))
            && (Objects(MarginLimit, cfg, shadowMode, breakerHolds, balance, book, e) <==>
                TotalMargin(book) + EntryMargin(e) > PctOf(balance, caps.marginPct))
  {
    PctIs(balance, cfg.corrRiskPct);
    PctIs(balance, cfg.Effective(shadowMode).marginPct);
    TfShareIs(cfg, balance, TfOf(e));
    CorrelatedIs(cfg, TotalMargin(book) + EntryMargin(e));
    hide TotalMargin, TfMargin, PctOf, TfShare, EntryMargin, Percent, Together, Config.Correlated, StopTooFar, Sided,
      Framed;
  }

  lemma PctIs(balance: real, pct: real)
    ensures PctOf(balance, pct) == Percent(balance, pct)
  {
  }

  lemma TfShareIs(cfg: Config, balance: real, tf: string)
    ensures TfShare(cfg, balance, tf) == PctOf(balance, cfg.TfExposure(tf)) && PerTf(cfg, tf) == cfg.TfLimit(tf)
  {
    PctIs(balance, cfg.TfExposure(tf));
    hide PctOf, Percent;
  }

  lemma ScansAre(book: Book, long: bool, tf: string)
    ensures InDirection(book, long) == Sided(book, long) && InTf(book, tf) == Framed(book, tf)
  {
  }

  lemma SlTestIs(e: Entry)
    ensures SlPastLiquidation(e) <==> StopTooFar(e)
  {
    var x := 0.9 / e.leverage as real;
    assert e.price * (1.0 - x) == e.price - x * e.price;
    assert e.price * (1.0 + x) == e.price + x * e.price;
  }

  /** A live verdict does not depend on the shadow caps, nor a shadow one on the live caps. */
  lemma ModesApart(cfg: Config, breakerHolds: bool, balance: real, book: Book, e: Entry, other: Caps)
    ensures Decide(cfg.(shadow := other), false, breakerHolds, balance, book, e) ==
            Decide(cfg, false, breakerHolds, balance, book, e)
    ensures Decide(cfg.(live := other), true, breakerHolds, balance, book, e) ==
            Decide(cfg, true, breakerHolds, balance, book, e)
  {
    hide InDirection, InTf, TotalMargin, TfMargin, SlPastLiquidation, PctOf, Notional, EntryMargin;
  }

  /** The numbers of positions within the caps of the mode. */
  ghost predicate CountsWithin(cfg: Config, shadowMode: bool, book: Book) {
    && |book| <= CapsOf(cfg, shadowMode).concurrent && |book| <= CapsOf(cfg, shadowMode).total
    && |Sided(book, true)| <= CapsOf(cfg, shadowMode).sameDirection
    && |Sided(book, false)| <= CapsOf(cfg, shadowMode).sameDirection
    && forall tf :: |Framed(book, tf)| <= PerTf(cfg, tf)
  }

  ghost predicate MarginsWithin(cfg: Config, shadowMode: bool, balance: real, book: Book) {
    && (forall tf :: TfMargin(book, tf) <= TfShare(cfg, balance, tf))
    && Together(cfg, TotalMargin(book)) <= Percent(balance, cfg.corrRiskPct)
    && TotalMargin(book) <= Percent(balance, CapsOf(cfg, shadowMode).marginPct)
  }

  /** What being within the caps means on the configuration's fields. */
  lemma CapsSpelledOut(cfg: Config, shadowMode: bool, balance: real, book: Book)
    ensures WithinCaps(cfg, shadowMode, balance, book) <==>
            CountsWithin(cfg, shadowMode, book) && MarginsWithin(cfg, shadowMode, balance, book)
  {
    CountsAre(cfg, shadowMode, book);
    MarginsAre(cfg, shadowMode, balance, book);
    hide CountsWithin, MarginsWithin, InDirection, InTf, TotalMargin, TfMargin, PctOf, Config.TfLimit,
      Config.TfExposure, Config.Correlated, Config.Effective;
  }

  lemma CountsAre(cfg: Config, shadowMode: bool, book: Book)
    ensures CountsWithin(cfg, shadowMode, book) <==>
            && |book| <= cfg.Effective(shadowMode).concurrent && |book| <= cfg.Effective(shadowMode).total
            && (forall long :: |InDirection(book, long)| <= cfg.Effective(shadowMode).sameDirection)
            && forall tf :: |InTf(book, tf)| <= cfg.TfLimit(tf)
  {
    ScansAre(book, true, "");
    ScansAre(book, false, "");
    forall tf
      ensures Framed(book, tf) == InTf(book, tf) && PerTf(cfg, tf) == cfg.TfLimit(tf)
    {
      ScansAre(book, true, tf);
      TfShareIs(cfg, 0.0, tf);
    }
    hide InDirection, InTf, Sided, Framed, PerTf, Config.TfLimit;
    assert (forall long :: |InDirection(book, long)| <= cfg.Effective(shadowMode).sameDirection) <==>
           |InDirection(book, true)| <= cfg.Effective(shadowMode).sameDirection &&
           |InDirection(book, false)| <= cfg.Effective(shadowMode).sameDirection;
  }

  lemma MarginsAre(cfg: Config, shadowMode: bool, balance: real, book: Book)
    ensures MarginsWithin(cfg, shadowMode, balance, book) <==>
            && (forall tf :: TfMargin(book, tf) <= PctOf(balance, cfg.TfExposure(tf)))
            && cfg.Correlated(TotalMargin(book)) <= PctOf(balance, cfg.corrRiskPct)
            && TotalMargin(book) <= PctOf(balance, cfg.Effective(shadowMode).marginPct)
  {
    TfMarginsAre(cfg, balance, book);
    PctIs(balance, cfg.corrRiskPct);
    PctIs(balance, cfg.Effective(shadowMode).marginPct);
    CorrelatedIs(cfg, TotalMargin(book));
    hide TotalMargin, TfMargin, TfShare, PctOf, Percent, Together, Config.TfExposure, Config.Correlated;
  }

  lemma CorrelatedIs(cfg: Config, margin: real)
    ensures cfg.Correlated(margin) == Together(cfg, margin)
  {
  }

  lemma TfMarginsAre(cfg: Config, balance: real, book: Book)
    ensures (forall tf :: TfMargin(book, tf) <= TfShare(cfg, balance, tf)) <==>
            forall tf :: TfMargin(book, tf) <= PctOf(balance, cfg.TfExposure(tf))
  {
    hide TfMargin, TfShare, PctOf, Config.TfExposure;
    forall tf
      ensures TfShare(cfg, balance, tf) == PctOf(balance, cfg.TfExposure(tf))
    {
      TfShareIs(cfg, balance, tf);
    }
  }

  // ---- Removing and shrinking ----

  /** `after` keeps some of `before`'s positions, each with no more margin. */
  ghost predicate Shrunk(after: Book, before: Book) {
    && after.Keys <= before.Keys
    && forall k :: k in after ==>
                     && after[k].timeframe == before[k].timeframe
                     && after[k].side == before[k].side
                     && after[k].symbol == before[k].symbol
                     && Margin(after[k]) <= Margin(before[k])
  }

  lemma SubsetSize<T>(a: set<T>, b: set<T>)
    requires a <= b
    ensures |a| <= |b|
  {
    assert b == a + (b - a);
  }

  lemma MarginOfMonotone(after: Book, before: Book, small: set<PosKey>, large: set<PosKey>)
    requires Shrunk(after, before) && small <= large && small <= after.Keys && large <= before.Keys
    ensures MarginOf(after, small) <= MarginOf(before, large)
  {
    TotalMonotone(map k | k in small :: Margin(after[k]), map k | k in large :: Margin(before[k]));
  }

  lemma DirectionMonotone(after: Book, before: Book, long: bool)
    requires Shrunk(after, before)
    ensures |InDirection(after, long)| <= |InDirection(before, long)|
  {
    SubsetSize(InDirection(after, long), InDirection(before, long));
  }

  lemma TfMonotone(after: Book, before: Book, tf: string)
    requires Shrunk(after, before)
    ensures |InTf(after, tf)| <= |InTf(before, tf)|
    ensures TfMargin(after, tf) <= TfMargin(before, tf)
  {
    SubsetSize(InTf(after, tf), InTf(before, tf));
    MarginOfMonotone(after, before, InTf(after, tf), InTf(before, tf));
  }

  lemma ShrinkingKeepsCaps(cfg: Config, shadowMode: bool, balance: real, after: Book, before: Book)
    requires WithinCaps(cfg, shadowMode, balance, before) && Shrunk(after, before)
    requires cfg.corrFactor >= 0.0
    ensures WithinCaps(cfg, shadowMode, balance, after)
    ensures |after| <= |before| && TotalMargin(after) <= TotalMargin(before)
  {
    hide PctOf, Config.Correlated, Margin, MarginOf, InTf, InDirection;
    SubsetSize(after.Keys, before.Keys);
    MarginOfMonotone(after, before, after.Keys, before.Keys);
    forall long
      ensures |InDirection(after, long)| <= cfg.Effective(shadowMode).sameDirection
    {
      DirectionMonotone(after, before, long);
    }
    forall tf
      ensures |InTf(after, tf)| <= cfg.TfLimit(tf)
      ensures TfMargin(after, tf) <= PctOf(balance, cfg.TfExposure(tf))
    {
      TfMonotone(after, before, tf);
    }
    CorrelatedMonotone(cfg, TotalMargin(after), TotalMargin(before));
  }

  lemma CorrelatedMonotone(cfg: Config, a: real, b: real)
    requires a <= b && 0.0 <= cfg.corrFactor
    ensures cfg.Correlated(a) <= cfg.Correlated(b)
  {
  }

  /** `reduce_quantity`: subtract, and erase the position once nothing is left. */
  function Reduce(book: Book, k: PosKey, amount: real): Book {
    if k !in book then book
    else if book[k].quantity - amount <= 0.0 then book - {k}
    else book[k := book[k].(quantity := book[k].quantity - amount)]
  }

  /** A position stays exactly while some of its quantity is left, with just that less; no other is touched. */
  lemma ReduceLeaves(book: Book, k: PosKey, amount: real)
    ensures k in Reduce(book, k, amount) <==> k in book && amount < book[k].quantity
    ensures k in Reduce(book, k, amount) ==>
              Reduce(book, k, amount)[k] == book[k].(quantity := book[k].quantity - amount)
    ensures Reduce(book, k, amount) - {k} == book - {k}
  {
  }

  lemma ReduceShrinks(book: Book, k: PosKey, amount: real)
    requires amount >= 0.0
    ensures Shrunk(Reduce(book, k, amount), book)
  {
    if k in book && book[k].quantity - amount > 0.0 {
      hide MarginFor;
      SmallerQuantity(book[k].entryPrice, book[k].quantity - amount, book[k].quantity, book[k].leverage);
    }
  }

  lemma SmallerQuantity(entryPrice: real, q: real, quantity: real, leverage: Leverage)
    requires 0.0 < q <= quantity
    ensures MarginFor(entryPrice, q, leverage) <= MarginFor(entryPrice, quantity, leverage)
  {
    SmallerProduct(entryPrice, q, quantity);
    Quotient(Abs(entryPrice * q), Abs(entryPrice * quantity), leverage as real);
  }

  lemma SmallerProduct(e: real, q: real, r: real)
    requires 0.0 < q <= r
    ensures Abs(e * q) <= Abs(e * r)
  {
    AbsProduct(e, q);
    AbsProduct(e, r);
    ProductMonotone(Abs(e), q, r);
  }

  lemma AbsProduct(e: real, q: real)
    requires 0.0 < q
    ensures Abs(e * q) == Abs(e) * q
  {
  }

  lemma Quotient(a: real, b: real, l: real)
    requires a <= b && 1.0 <= l
    ensures a / l <= b / l
    ensures 0.0 <= b ==> 0.0 <= b / l <= b
  {
  }

  // ---- One worker: every reachable book is within its caps ----

  datatype Event =
    | Enter(e: Entry, breakerHolds: bool)
    | Remove(key: PosKey)
    | Shrink(key: PosKey, amount: real)

  datatype Desk = Desk(book: Book, nextOid: nat)

  ghost predicate OidsFresh(d: Desk) {
    forall k :: k in d.book && k.Opened? ==> k.oid < d.nextOid
  }

  ghost function Apply(cfg: Config, shadowMode: bool, balance: real, d: Desk, ev: Event): Desk {
    match ev
    case Enter(e, breakerHolds) =>
      if Decide(cfg, shadowMode, breakerHolds, balance, d.book, e).Allowed?
      then Desk(d.book[Opened(e.symbol, TfOf(e), d.nextOid) := PositionOf(e)], d.nextOid + 1)
      else d
    case Remove(key) => d.(book := d.book - {key})
    case Shrink(key, amount) => d.(book := Reduce(d.book, key, amount))
  }

  ghost function RunDesk(cfg: Config, shadowMode: bool, balance: real, d: Desk, events: seq<Event>): Desk {
    if events == [] then d
    else Apply(cfg, shadowMode, balance, RunDesk(cfg, shadowMode, balance, d, events[..|events| - 1]),
               events[|events| - 1])
  }

  ghost predicate WellFormedEvent(ev: Event) {
    && (ev.Enter? ==> ev.e.price > 0.0 && ev.e.quantity > 0.0)
    && (ev.Shrink? ==> ev.amount >= 0.0)
  }

  lemma StepKeepsCaps(cfg: Config, shadowMode: bool, balance: real, d: Desk, ev: Event)
    requires WithinCaps(cfg, shadowMode, balance, d.book) && OidsFresh(d) && cfg.corrFactor >= 0.0
    requires WellFormedEvent(ev)
    ensures WithinCaps(cfg, shadowMode, balance, Apply(cfg, shadowMode, balance, d, ev).book)
    ensures OidsFresh(Apply(cfg, shadowMode, balance, d, ev))
  {
    hide WithinCaps, Decide, Shrunk;
    match ev
    case Enter(e, breakerHolds) =>
      EntryHasNotional(e);
      AllowedExactly(cfg, shadowMode, breakerHolds, balance, d.book, e, Opened(e.symbol, TfOf(e), d.nextOid));
    case Remove(key) =>
      RemovalShrinks(d.book, key);
      ShrinkingKeepsCaps(cfg, shadowMode, balance, d.book - {key}, d.book);
    case Shrink(key, amount) =>
      ReduceShrinks(d.book, key, amount);
      ShrinkingKeepsCaps(cfg, shadowMode, balance, Reduce(d.book, key, amount), d.book);
  }

  lemma EntryHasNotional(e: Entry)
    requires e.price > 0.0 && e.quantity > 0.0
    ensures Notional(e) > 0.0
  {
  }

  lemma RemovalShrinks(book: Book, key: PosKey)
    ensures Shrunk(book - {key}, book)
  {
  }

  /** All seven caps hold in every state that entries, removals and reductions can reach. */
  lemma {:induction false} CapsForever(cfg: Config, shadowMode: bool, balance: real, d: Desk, events: seq<Event>)
    requires WithinCaps(cfg, shadowMode, balance, d.book) && OidsFresh(d) && cfg.corrFactor >= 0.0
    requires forall i :: 0 <= i < |events| ==> WellFormedEvent(events[i])
    ensures WithinCaps(cfg, shadowMode, balance, RunDesk(cfg, shadowMode, balance, d, events).book)
    ensures OidsFresh(RunDesk(cfg, shadowMode, balance, d, events))
  {
    hide WithinCaps, Apply, OidsFresh;
    if events == [] {
    } else {
      var n := |events| - 1;
      CapsForever(cfg, shadowMode, balance, d, events[..n]);
      StepKeepsCaps(cfg, shadowMode, balance, RunDesk(cfg, shadowMode, balance, d, events[..n]), events[n]);
    }
  }

  /** In live trading, in particular, the live number of positions is never exceeded, whatever the shadow caps. */
  lemma LiveLimitHolds(cfg: Config, balance: real, d: Desk, events: seq<Event>)
    requires WithinCaps(cfg, false, balance, d.book) && OidsFresh(d) && cfg.corrFactor >= 0.0
    requires forall i :: 0 <= i < |events| ==> WellFormedEvent(events[i])
    ensures |RunDesk(cfg, false, balance, d, events).book| <= cfg.live.concurrent
  {
    CapsForever(cfg, false, balance, d, events);
    CapsSpelledOut(cfg, false, balance, RunDesk(cfg, false, balance, d, events).book);
    hide RunDesk, TotalMargin, TfMargin, PerTf, TfShare;
  }

  // ---- The counters ----

  function CountOf(history: seq<Decision>, d: Decision): nat {
    if history == [] then 0
    else CountOf(history[..|history| - 1], d) + if history[|history| - 1] == d then 1 else 0
  }

  function CountBlocked(history: seq<Decision>): nat {
    if history == [] then 0
    else CountBlocked(history[..|history| - 1]) + if history[|history| - 1].Blocked? then 1 else 0
  }

  /** Every check either passes or is blocked. */
  lemma {:induction false} ChecksPartition(history: seq<Decision>)
    ensures |history| == CountOf(history, Allowed) + CountBlocked(history)
  {
    if history == [] {
    } else {
      ChecksPartition(history[..|history| - 1]);
    }
  }

  const NANOS_PER_MINUTE := 60_000_000_000

  class PortfolioRiskManager {
    const cfg: Config
    var shadowMode: bool
    var cbActive: bool
    var cbActivatedAt: int
    var checksTotal: nat
    var checksPassed: nat
    var checksBlocked: nat
    var blockReasons: map<Check, nat>
    var dailyPnl: real
    var weeklyPnl: real
    var lastDay: int
    var lastWeekDay: int
    ghost var decisions: seq<Decision>

    /** The counters are the tallies of every decision ever made. */
    ghost predicate Valid()
      reads this
    {
      && checksTotal == |decisions|
      && checksPassed == CountOf(decisions, Allowed)
      && checksBlocked == CountBlocked(decisions)
      && forall c: Check :: (if c in blockReasons then blockReasons[c] else 0) == CountOf(decisions, Blocked(c))
    }

    ghost predicate BreakerHolds(now: int)
      reads this
    {
      cbActive && (now - cbActivatedAt) / NANOS_PER_MINUTE < cfg.cooldownMinutes
    }

    /** Whole minutes against whole minutes: the breaker holds for exactly the configured time. */
    lemma BreakerHoldsIff(now: int)
      requires cbActivatedAt <= now
      ensures BreakerHolds(now) <==> cbActive && now - cbActivatedAt < cfg.cooldownMinutes * 60_000_000_000
    {
      if cbActive {
        var age := now - cbActivatedAt;
        assert age == NANOS_PER_MINUTE * (age / NANOS_PER_MINUTE) + age % NANOS_PER_MINUTE;
      }
    }

    constructor (cfg: Config)
      ensures Valid() && decisions == [] && !shadowMode && !cbActive && this.cfg == cfg
      ensures CalendarSums() == RiskCalendar.FRESH
    {
      this.cfg := cfg;
      shadowMode, cbActive, cbActivatedAt := false, false, 0;
      checksTotal, checksPassed, checksBlocked := 0, 0, 0;
      blockReasons := map[];
      dailyPnl, weeklyPnl, lastDay, lastWeekDay := 0.0, 0.0, -1, -1;
      decisions := [];
    }

    ghost function CalendarSums(): RiskCalendar.Sums
      reads this
    {
      RiskCalendar.Sums(dailyPnl, weeklyPnl, lastDay, lastWeekDay)
    }

    /** A new day clears the daily sum; a Monday not seen yet clears the weekly one with it. */
    method CheckDailyReset(today: RiskCalendar.Day)
      modifies `dailyPnl, `weeklyPnl, `lastDay, `lastWeekDay
      ensures CalendarSums() == RiskCalendar.AfterDay(today, old(CalendarSums()))
    {
      if today.ofYear != lastDay {
        dailyPnl, lastDay := 0.0, today.ofYear;
        if today.monday && today.ofYear != lastWeekDay {
          weeklyPnl, lastWeekDay := 0.0, today.ofYear;
        }
      }
    }

    /** One locked check: the ten tests in the order and with the early exits of the code. */
    method Examine(e: Entry, balance: real, book: Book, now: int) returns (d: Decision)
      modifies `cbActive
      ensures d == old(Decide(cfg, shadowMode, BreakerHolds(now), balance, book, e))
      ensures cbActive == old(cbActive &&
                              (BreakerHolds(now) || Notional(e) > HARD_MAX_NOTIONAL || SlPastLiquidation(e)))
    {
      hide PctOf, Config.Correlated, Notional, EntryMargin, TotalMargin, TfMargin, InTf, InDirection, SlPastLiquidation;
      if Notional(e) > HARD_MAX_NOTIONAL {
        return Blocked(HardNotionalCap);
      }
      if SlPastLiquidation(e) {
        return Blocked(SlBeyondLiquidation);
      }
      if cbActive {
        if (now - cbActivatedAt) / NANOS_PER_MINUTE < cfg.cooldownMinutes {
          return Blocked(CircuitBreaker);
        }
        cbActive := false;
      }
      var caps := cfg.Effective(shadowMode);
      if |book| >= caps.concurrent {
        return Blocked(MaxConcurrent);
      }
      var sameDir := CountSameDirection(book, IsLong(e.side));
      if sameDir >= caps.sameDirection {
        return Blocked(MaxSameDirection);
      }
      if |book| >= caps.total {
        return Blocked(MaxPositions);
      }
      var tf := TfOf(e);
      var tfCount := CountInTf(book, tf);
      if tfCount >= cfg.TfLimit(tf) {
        return Blocked(TfPositionLimit);
      }
      var newMargin := EntryMargin(e);
      var tfMargin := SumTfMargin(book, tf);
      if tfMargin + newMargin > PctOf(balance, cfg.TfExposure(tf)) {
        return Blocked(TfExposureCap);
      }
      var totalMargin := SumMargin(book);
      if cfg.Correlated(totalMargin + newMargin) > PctOf(balance, cfg.corrRiskPct) {
        return Blocked(CorrelationRisk);
      }
      if totalMargin + newMargin > PctOf(balance, caps.marginPct) {
        return Blocked(MarginLimit);
      }
      return Allowed;
    }

    /** `check_entry`: turn the day if it changed, examine, then book the verdict in the counters. */
    method CheckEntry(e: Entry, balance: real, book: Book, now: int, today: RiskCalendar.Day) returns (d: Decision)
      requires Valid() && cbActivatedAt <= now
      modifies this
      ensures Valid() && shadowMode == old(shadowMode) && cbActivatedAt == old(cbActivatedAt)
      ensures d == old(Decide(cfg, shadowMode, BreakerHolds(now), balance, book, e))
      ensures decisions == old(decisions) + [d] && checksTotal == checksPassed + checksBlocked
      ensures CalendarSums() == RiskCalendar.AfterDay(today, old(CalendarSums()))
    {
      hide Decide, RiskCalendar.AfterDay, CountOf, CountBlocked;
      CheckDailyReset(today);
      d := Examine(e, balance, book, now);
      RecordVerdict(d);
      ChecksPartition(decisions);
    }

    method RecordVerdict(d: Decision)
      requires Valid()
      modifies `checksTotal, `checksPassed, `checksBlocked, `blockReasons, `decisions
      ensures Valid() && decisions == old(decisions) + [d]
    {
      assert (decisions + [d])[..|decisions|] == decisions;
      checksTotal := checksTotal + 1;
      decisions := decisions + [d];
      match d
      case Allowed =>
        checksPassed := checksPassed + 1;
      case Blocked(check) =>
        checksBlocked := checksBlocked + 1;
        blockReasons := blockReasons[check := (if check in blockReasons then blockReasons[check] else 0) + 1];
    }

    static method CountSameDirection(book: Book, long: bool) returns (count: nat)
      ensures count == |InDirection(book, long)|
    {
      count := 0;
      var todo := book.Keys;
      ghost var all := InDirection(book, long);
      assert forall k :: k in all <==> k in book && IsLong(book[k].side) == long;
      hide *;
      while todo != {}
        invariant todo <= book.Keys && count == |all - todo|
        decreases |todo|
      {
        var k :| k in todo;
        OneVisited(all, todo, k);
        if IsLong(book[k].side) == long {
          count := count + 1;
        }
        todo := todo - {k};
      }
      assert all - {} == all;
    }

    static method CountInTf(book: Book, tf: string) returns (count: nat)
      ensures count == |InTf(book, tf)|
    {
      count := 0;
      var todo := book.Keys;
      ghost var all := InTf(book, tf);
      assert forall k :: k in all <==> k in book && book[k].timeframe == tf;
      hide *;
      while todo != {}
        invariant todo <= book.Keys && count == |all - todo|
        decreases |todo|
      {
        var k :| k in todo;
        OneVisited(all, todo, k);
        if book[k].timeframe == tf {
          count := count + 1;
        }
        todo := todo - {k};
      }
      assert all - {} == all;
    }

    static method SumTfMargin(book: Book, tf: string) returns (margin: real)
      ensures margin == TfMargin(book, tf)
    {
      margin := 0.0;
      var todo := book.Keys;
      ghost var all := InTf(book, tf);
      assert forall k :: k in all <==> k in book && book[k].timeframe == tf;
      NoMargin(book);
      assert all - todo == {};
      hide InTf, MarginOf, Margin;
      while todo != {}
        invariant todo <= book.Keys && margin == MarginOf(book, all - todo)
        decreases |todo|
      {
        var k :| k in todo;
        MarginVisited(book, all, todo, k);
        if book[k].timeframe == tf {
          margin := margin + Margin(book[k]);
        }
        todo := todo - {k};
      }
      assert all - {} == all;
    }

    static method SumMargin(book: Book) returns (margin: real)
      ensures margin == TotalMargin(book)
    {
      margin := 0.0;
      var todo := book.Keys;
      ghost var seen: set<PosKey> := {};
      NoMargin(book);
      hide MarginOf, Margin;
      while todo != {}
        invariant todo <= book.Keys
        invariant seen == book.Keys - todo && margin == MarginOf(book, seen)
        decreases |todo|
      {
        var k :| k in todo;
        MarginOfInsert(book, seen, k);
        margin := margin + Margin(book[k]);
        todo, seen := todo - {k}, seen + {k};
      }
      assert seen == book.Keys;
    }
  }

  lemma OneVisited<T>(all: set<T>, todo: set<T>, k: T)
    requires k in todo
    ensures all - (todo - {k}) == all - todo + (if k in all then {k} else {})
    ensures |all - (todo - {k})| == |all - todo| + if k in all then 1 else 0
  {
    assert all - (todo - {k}) == all - todo + if k in all then {k} else {};
  }

  lemma MarginVisited(book: Book, all: set<PosKey>, todo: set<PosKey>, k: PosKey)
    requires all <= book.Keys && k in todo
    ensures MarginOf(book, all - (todo - {k})) == MarginOf(book, all - todo) + if k in all then Margin(book[k]) else 0.0
  {
    hide MarginOf, Margin;
    OneVisited(all, todo, k);
    if k in all {
      MarginOfInsert(book, all - todo, k);
    }
  }

  lemma NoMargin(book: Book)
    ensures MarginOf(book, {}) == 0.0
  {
  }
}
