/**
 Where positions come from and what changes them. In every interleaving each position is the entry some
 worker took, checked and registered in one stint, and every change to a position is that of a close
 signal for its symbol and side, or an external close.
 */
module Origins {
  import opened PortfolioRisk
  import opened Admission
  import Closes = ConcurrentCloses

  /** What a run starts from. */
  datatype Setup = Setup(cfg: Config, shadowMode: bool, s: State)

  ghost function At(u: Setup, actions: seq<Action>): State {
    Run(u.cfg, u.shadowMode, u.s, actions)
  }

  ghost function Registered(u: Setup, actions: seq<Action>, key: PosKey): real {
    Closes.Registered(u.cfg, u.shadowMode, u.s, actions, key)
  }

  ghost function Booked(u: Setup, actions: seq<Action>, key: PosKey): real {
    Closes.Booked(u.cfg, u.shadowMode, u.s, actions, key)
  }

  /** Idle workers, and a book of positive quantities under used ids. */
  ghost predicate Start(s: State) {
    && (forall w :: 0 <= w < |s.workers| ==> s.workers[w].Idle?)
    && (forall k :: k in s.shared.book ==> s.shared.book[k].quantity > 0.0)
    && (forall k :: k in s.shared.book && k.Opened? ==> k.oid < s.shared.nextOid)
  }

  // ---- Stints ----

  /** The worker is not idle after any of the actions from `from` up to but not including `to`. */
  ghost predicate Busy(u: Setup, actions: seq<Action>, w: nat, from: nat, to: nat)
    requires to <= |actions|
  {
    forall n :: from < n <= to ==>
                  w < |At(u, actions[..n]).workers| && !At(u, actions[..n]).workers[w].Idle?
  }

  /** The worker is at the signal that its i-th action took. */
  ghost predicate Stint(u: Setup, actions: seq<Action>, w: nat, i: nat, sig: Signal) {
    i < |actions| && actions[i] == Act(w, Take(sig)) && Busy(u, actions, w, i, |actions|)
  }

  /** The entry a signal asks for: long for a buy and short otherwise, with the figures it was checked with. */
  ghost predicate Answers(e: Entry, sig: Signal, op: Op) {
    && sig.EntrySignal? && op.CheckEntry?
    && e.symbol == sig.symbol && e.price == sig.price
    && e.timeframe == (if sig.timeframe == "" then "unknown" else sig.timeframe)
    && e.side == (if sig.action == "buy" then "long" else "short")
    && e.quantity == op.quantity && e.leverage == op.leverage && e.slPrice == op.slPrice
  }

  /** The j-th action was the worker's check of the entry, and the check allowed it. */
  ghost predicate Checked(u: Setup, actions: seq<Action>, w: nat, j: nat, e: Entry, op: Op) {
    && j < |actions| && actions[j] == Act(w, op) && op.CheckEntry?
    && var shared := At(u, actions[..j]).shared;
    Decide(u.cfg, u.shadowMode, op.breakerHolds, shared.balance, shared.book, e).Allowed?
  }

  ghost predicate EntryBy(u: Setup, actions: seq<Action>, w: nat, i: nat, j: nat, sig: Signal, op: Op, e: Entry) {
    Stint(u, actions, w, i, sig) && i < j && Checked(u, actions, w, j, e, op) && Answers(e, sig, op)
  }

  ghost predicate HasEntry(u: Setup, actions: seq<Action>, w: nat, e: Entry) {
    exists i, j, sig, op :: EntryBy(u, actions, w, i, j, sig, op, e)
  }

  /** The worker's signal closes positions of the symbol and side at the level: bullish ones longs, others shorts. */
  ghost predicate CloseBy(u: Setup, actions: seq<Action>, w: nat, i: nat, sig: Signal, symbol: string, side: string,
                          level: Level) {
    && Stint(u, actions, w, i, sig)
    && sig.CloseSignal? && sig.symbol == symbol && sig.level == level
    && side == (if sig.direction == "bull" then "long" else "short")
  }

  ghost predicate HasClose(u: Setup, actions: seq<Action>, w: nat, symbol: string, side: string, level: Level) {
    exists i, sig :: CloseBy(u, actions, w, i, sig, symbol, side, level)
  }

  /** What the worker carries is what its signal and its check gave it. */
  ghost predicate Explained(u: Setup, actions: seq<Action>, w: nat, p: Phase) {
    match p
    case Idle => true
    case Waiting(sig) => exists i :: Stint(u, actions, w, i, sig)
    case Holding(sig) => exists i :: Stint(u, actions, w, i, sig)
    case Admitted(e) => HasEntry(u, actions, w, e)
    case Ordered(e, _) => HasEntry(u, actions, w, e)
    case Matched(symbol, side, _, _, level) => HasClose(u, actions, w, symbol, side, level)
    case Leaving(_) => true
  }

  ghost predicate AllExplained(u: Setup, actions: seq<Action>) {
    forall w :: 0 <= w < |At(u, actions).workers| ==> Explained(u, actions, w, At(u, actions).workers[w])
  }

  lemma AtSnoc(u: Setup, actions: seq<Action>, x: Action)
    ensures At(u, actions + [x]) == Step(u.cfg, u.shadowMode, At(u, actions), x)
    ensures |At(u, actions + [x]).workers| == |At(u, actions).workers|
  {
    assert (actions + [x])[..|actions|] == actions;
    hide Local;
  }

  lemma BusySnoc(u: Setup, actions: seq<Action>, x: Action, w: nat, from: nat, to: nat)
    requires to <= |actions| && Busy(u, actions, w, from, to)
    ensures Busy(u, actions + [x], w, from, to)
  {
    forall n | from < n <= to
      ensures w < |At(u, (actions + [x])[..n]).workers| && !At(u, (actions + [x])[..n]).workers[w].Idle?
    {
      assert (actions + [x])[..n] == actions[..n];
    }
  }

  lemma StintSnoc(u: Setup, actions: seq<Action>, x: Action, w: nat, i: nat, sig: Signal)
    requires Stint(u, actions, w, i, sig)
    requires w < |At(u, actions + [x]).workers| && !At(u, actions + [x]).workers[w].Idle?
    ensures Stint(u, actions + [x], w, i, sig)
  {
    BusySnoc(u, actions, x, w, i, |actions|);
    var longer := actions + [x];
    assert longer[i] == actions[i];
    hide At;
    forall n | i < n <= |longer|
      ensures w < |At(u, longer[..n]).workers| && !At(u, longer[..n]).workers[w].Idle?
    {
      if n == |longer| {
        assert longer[..n] == longer;
      }
    }
  }

  lemma CheckedSnoc(u: Setup, actions: seq<Action>, x: Action, w: nat, j: nat, e: Entry, op: Op)
    requires Checked(u, actions, w, j, e, op)
    ensures Checked(u, actions + [x], w, j, e, op)
  {
    assert (actions + [x])[..j] == actions[..j];
  }

  /** What explains a phase goes on explaining it until the worker is idle. */
  lemma ExplainedSnoc(u: Setup, actions: seq<Action>, x: Action, w: nat, p: Phase)
    requires Explained(u, actions, w, p)
    requires w < |At(u, actions + [x]).workers| && !At(u, actions + [x]).workers[w].Idle?
    ensures Explained(u, actions + [x], w, p)
  {
    hide At, Stint, Checked, Answers;
    match p
    case Idle =>
    case Leaving(_) =>
    case Waiting(sig) =>
      var i :| Stint(u, actions, w, i, sig);
      StintSnoc(u, actions, x, w, i, sig);
    case Holding(sig) =>
      var i :| Stint(u, actions, w, i, sig);
      StintSnoc(u, actions, x, w, i, sig);
    case Admitted(e) => HasEntrySnoc(u, actions, x, w, e);
    case Ordered(e, _) => HasEntrySnoc(u, actions, x, w, e);
    case Matched(symbol, side, _, _, level) =>
      var i, sig :| CloseBy(u, actions, w, i, sig, symbol, side, level);
      StintSnoc(u, actions, x, w, i, sig);
      assert CloseBy(u, actions + [x], w, i, sig, symbol, side, level);
  }

  lemma HasEntrySnoc(u: Setup, actions: seq<Action>, x: Action, w: nat, e: Entry)
    requires HasEntry(u, actions, w, e)
    requires w < |At(u, actions + [x]).workers| && !At(u, actions + [x]).workers[w].Idle?
    ensures HasEntry(u, actions + [x], w, e)
  {
    hide At, Stint, Checked, Answers;
    var i, j, sig, op :| EntryBy(u, actions, w, i, j, sig, op, e);
    StintSnoc(u, actions, x, w, i, sig);
    CheckedSnoc(u, actions, x, w, j, e, op);
    assert EntryBy(u, actions + [x], w, i, j, sig, op, e);
  }

  /** Where a phase comes from in one step: it was there, or it follows from the signal or the check just made. */
  ghost predicate Follows(cfg: Config, shadowMode: bool, s: Shared, p: Phase, op: Op, q: Phase) {
    match q
    case Idle => true
    case Waiting(sig) => p == q || (p.Idle? && op == Take(sig))
    case Holding(sig) => p == q || p == Waiting(sig)
    case Admitted(e) =>
      || p == q
      || (p.Holding? && Answers(e, p.sig, op) &&
          Decide(cfg, shadowMode, op.breakerHolds, s.balance, s.book, e).Allowed?)
    case Ordered(e, _) => p == q || p == Admitted(e)
    case Matched(symbol, side, _, _, level) =>
      || p == q
      || (p.Holding? && p.sig.CloseSignal? && p.sig.symbol == symbol && p.sig.level == level
          && side == (if p.sig.direction == "bull" then "long" else "short"))
    case Leaving(_) => true
  }

  lemma PhaseFollows(cfg: Config, shadowMode: bool, s: Shared, p: Phase, op: Op)
    ensures Follows(cfg, shadowMode, s, p, op, Local(cfg, shadowMode, s, p, op).1)
  {
    hide Decide, Conflicts, PositionOf, CloseRatio, Reduce;
  }

  lemma WorkerExplained(u: Setup, actions: seq<Action>, w: nat, op: Op)
    requires AllExplained(u, actions) && w < |At(u, actions).workers|
    ensures var longer := actions + [Act(w, op)];
            w < |At(u, longer).workers| && Explained(u, longer, w, At(u, longer).workers[w])
  {
    var x := Act(w, op);
    var s := At(u, actions);
    var p := s.workers[w];
    AtSnoc(u, actions, x);
    PhaseFollows(u.cfg, u.shadowMode, s.shared, p, op);
    var q := Local(u.cfg, u.shadowMode, s.shared, p, op).1;
    assert At(u, actions + [x]).workers[w] == q;
    assert Explained(u, actions, w, p);
    hide Local, At;
    if !q.Idle? {
      ExplainedSnoc(u, actions, x, w, p);
      var i := StintOf(u, actions, w, p);
      if p.Holding? {
        StintSnoc(u, actions, x, w, i, p.sig);
      }
      NewPhaseExplained(u, actions, w, op, s.shared, p, q, i);
    }
  }

  lemma StintOf(u: Setup, actions: seq<Action>, w: nat, p: Phase) returns (i: nat)
    requires Explained(u, actions, w, p)
    ensures p.Holding? ==> i < |actions| && Stint(u, actions, w, i, p.sig)
  {
    i := 0;
    if p.Holding? {
      i :| Stint(u, actions, w, i, p.sig);
    }
  }

  lemma NewPhaseExplained(u: Setup, actions: seq<Action>, w: nat, op: Op, shared: Shared, p: Phase, q: Phase, i: nat)
    requires Follows(u.cfg, u.shadowMode, shared, p, op, q) && shared == At(u, actions).shared
    requires Explained(u, actions + [Act(w, op)], w, p) && !q.Idle?
    requires w < |At(u, actions + [Act(w, op)]).workers| && At(u, actions + [Act(w, op)]).workers[w] == q
    requires p.Holding? ==> i < |actions| && Stint(u, actions + [Act(w, op)], w, i, p.sig)
    ensures Explained(u, actions + [Act(w, op)], w, q)
  {
    var x := Act(w, op);
    var longer := actions + [x];
    if q.Waiting? && p.Idle? {
      assert longer[..|longer|] == longer;
      assert Stint(u, longer, w, |actions|, q.sig);
    } else if q.Admitted? && p != q {
      assert longer[..|actions|] == actions;
      assert EntryBy(u, longer, w, i, |actions|, p.sig, op, q.e);
    } else if q.Matched? && p != q {
      assert CloseBy(u, longer, w, i, p.sig, q.symbol, q.side, q.level);
    }
  }

  lemma ExplainedStep(u: Setup, actions: seq<Action>, x: Action)
    requires AllExplained(u, actions)
    ensures AllExplained(u, actions + [x])
  {
    AtSnoc(u, actions, x);
    hide Local, Explained, At;
    forall v | 0 <= v < |At(u, actions + [x]).workers|
      ensures Explained(u, actions + [x], v, At(u, actions + [x]).workers[v])
    {
      if x.Act? && x.w == v {
        WorkerExplained(u, actions, v, x.op);
      } else if !At(u, actions).workers[v].Idle? {
        ExplainedSnoc(u, actions, x, v, At(u, actions).workers[v]);
      } else {
        IdleExplained(u, actions + [x], v);
      }
    }
  }

  lemma IdleExplained(u: Setup, actions: seq<Action>, w: nat)
    ensures Explained(u, actions, w, Idle)
  {
  }

  /** In every interleaving, every worker is explained by its stint. */
  lemma {:induction false} EveryWorkerExplained(u: Setup, actions: seq<Action>)
    requires Start(u.s)
    ensures AllExplained(u, actions)
  {
    if actions != [] {
      var n := |actions| - 1;
      EveryWorkerExplained(u, actions[..n]);
      ExplainedStep(u, actions[..n], actions[n]);
      assert actions[..n] + [actions[n]] == actions;
    }
  }

  // ---- Positions ----

  /** The figures of the position are those of the entry; only the quantity may have become another. */
  predicate IsOf(p: Position, e: Entry) {
    && p.symbol == e.symbol && p.timeframe == e.timeframe && p.side == e.side
    && p.entryPrice == e.price && p.leverage == e.leverage && p.slPrice == e.slPrice
  }

  /** The course of an entry: the actions by which its worker took the signal, checked the entry and registered it. */
  datatype Course = Course(w: nat, taken: nat, checked: nat, registered: nat, sig: Signal, op: Op, e: Entry)

  /** The position of the key came by this course, within one stint of the worker. */
  ghost predicate Origin(u: Setup, actions: seq<Action>, key: PosKey, p: Position, c: Course) {
    && c.taken < c.checked < c.registered < |actions|
    && actions[c.taken] == Act(c.w, Take(c.sig)) && Busy(u, actions, c.w, c.taken, c.registered)
    && Checked(u, actions, c.w, c.checked, c.e, c.op) && Answers(c.e, c.sig, c.op)
    && actions[c.registered] == Act(c.w, Register(p.isReal)) && IsOf(p, c.e)
    && key.Opened? && key.symbol == c.e.symbol && key.timeframe == c.e.timeframe
  }

  ghost predicate HasOrigin(u: Setup, actions: seq<Action>, key: PosKey, p: Position) {
    exists c :: Origin(u, actions, key, p, c) && Registered(u, actions, key) == c.e.quantity
  }

  lemma OriginSnoc(u: Setup, actions: seq<Action>, x: Action, key: PosKey, p: Position, q: Position)
    requires HasOrigin(u, actions, key, p) && q == p.(quantity := q.quantity)
    requires Registered(u, actions + [x], key) == Registered(u, actions, key)
    ensures HasOrigin(u, actions + [x], key, q)
  {
    hide At, Answers, Registered;
    var c :| Origin(u, actions, key, p, c) && Registered(u, actions, key) == c.e.quantity;
    BusySnoc(u, actions, x, c.w, c.taken, c.registered);
    CheckedSnoc(u, actions, x, c.w, c.checked, c.e, c.op);
    hide Busy, Checked;
    assert Origin(u, actions + [x], key, q, c);
  }

  lemma OriginNew(u: Setup, actions: seq<Action>, w: nat, isReal: bool, key: PosKey, e: Entry, p: Position)
    requires HasEntry(u, actions, w, e) && IsOf(p, e) && p.isReal == isReal
    requires key.Opened? && key.symbol == e.symbol && key.timeframe == e.timeframe
    requires Registered(u, actions + [Act(w, Register(isReal))], key) == e.quantity
    ensures HasOrigin(u, actions + [Act(w, Register(isReal))], key, p)
  {
    hide At, Registered;
    var x := Act(w, Register(isReal));
    var i, j, sig, op :| EntryBy(u, actions, w, i, j, sig, op, e);
    BusySnoc(u, actions, x, w, i, |actions|);
    CheckedSnoc(u, actions, x, w, j, e, op);
    hide Busy, Checked;
    assert Origin(u, actions + [x], key, p, Course(w, i, j, |actions|, sig, op, e));
  }

  /** What a step leaves under a key: what was there but for the quantity, or the entry being registered. */
  lemma UnderKey(cfg: Config, shadowMode: bool, s: State, x: Action, key: PosKey)
    requires key in Step(cfg, shadowMode, s, x).shared.book
    ensures var p := Step(cfg, shadowMode, s, x).shared.book[key];
            || (key in s.shared.book && p == s.shared.book[key].(quantity := p.quantity))
            || (x.Act? && x.op.Register? && x.w < |s.workers| && s.workers[x.w].Ordered?
                && key == Opened(s.workers[x.w].e.symbol, s.workers[x.w].e.timeframe, s.workers[x.w].oid)
                && p == PositionOf(s.workers[x.w].e).(isReal := x.op.isReal))
  {
    hide Decide, Conflicts, PositionOf, CloseRatio, EntryOf;
  }

  lemma RegisteredSnoc(u: Setup, actions: seq<Action>, x: Action, key: PosKey)
    ensures Registered(u, actions + [x], key) ==
            Registered(u, actions, key) + Closes.Of(Closes.RegisteredBy(At(u, actions), x), key)
  {
    assert (actions + [x])[..|actions|] == actions;
  }

  /** The key has a past order id that no worker still has to register. */
  ghost predicate Used(s: State, key: PosKey) {
    && key.Opened? && key.oid < s.shared.nextOid
    && forall w :: 0 <= w < |s.workers| && s.workers[w].Ordered? ==> s.workers[w].oid != key.oid
  }

  /** So has every key ever registered. */
  ghost predicate UsedIds(u: Setup, actions: seq<Action>) {
    forall key :: Registered(u, actions, key) != 0.0 ==> Used(At(u, actions), key)
  }

  lemma UsedIdsStep(u: Setup, actions: seq<Action>, x: Action)
    requires UsedIds(u, actions) && IdsFresh(At(u, actions))
    ensures UsedIds(u, actions + [x])
  {
    var t := At(u, actions + [x]);
    hide At, Registered, UsedIds, IdsFresh, Used;
    forall key | Registered(u, actions + [x], key) != 0.0
      ensures Used(t, key)
    {
      RegisteredSnoc(u, actions, x, key);
      StaysUsed(u, actions, x, key);
    }
    AllUsed(u, actions + [x]);
  }

  lemma AllUsed(u: Setup, actions: seq<Action>)
    requires forall key :: Registered(u, actions, key) != 0.0 ==> Used(At(u, actions), key)
    ensures UsedIds(u, actions)
  {
  }

  lemma StaysUsed(u: Setup, actions: seq<Action>, x: Action, key: PosKey)
    requires UsedIds(u, actions) && IdsFresh(At(u, actions))
    requires Registered(u, actions, key) != 0.0 || Closes.Of(Closes.RegisteredBy(At(u, actions), x), key) != 0.0
    ensures Used(At(u, actions + [x]), key)
  {
    AtSnoc(u, actions, x);
    var s := At(u, actions);
    if x.Act? && x.w < |s.workers| {
      IdsOf(u.cfg, u.shadowMode, s.shared, s.workers[x.w], x.op);
      RegisterFrees(u.cfg, u.shadowMode, s.shared, s.workers[x.w], x.op);
    }
    hide Local, At, Registered;
  }

  lemma RegisterFrees(cfg: Config, shadowMode: bool, s: Shared, p: Phase, op: Op)
    ensures op.Register? ==> !Local(cfg, shadowMode, s, p, op).1.Ordered?
  {
  }

  ghost predicate AllOriginate(u: Setup, actions: seq<Action>) {
    var book := At(u, actions).shared.book;
    forall key :: key in book && key !in u.s.shared.book ==> HasOrigin(u, actions, key, book[key])
  }

  lemma OriginatesStep(u: Setup, actions: seq<Action>, x: Action, key: PosKey)
    requires AllExplained(u, actions) && AllOriginate(u, actions) && UsedIds(u, actions)
    requires IdsFresh(At(u, actions)) &&
             (forall w :: 0 <= w < |At(u, actions).workers| ==> Named(At(u, actions).workers[w]))
    requires key in At(u, actions + [x]).shared.book && key !in u.s.shared.book
    ensures HasOrigin(u, actions + [x], key, At(u, actions + [x]).shared.book[key])
  {
    AtSnoc(u, actions, x);
    var s, t := At(u, actions), At(u, actions + [x]);
    UnderKey(u.cfg, u.shadowMode, s, x, key);
    RegisteredSnoc(u, actions, x, key);
    hide Step, At, Registered, HasOrigin;
    if key in s.shared.book && t.shared.book[key] == s.shared.book[key].(quantity := t.shared.book[key].quantity) {
      KeyNotRegistered(s, x, key);
      OriginSnoc(u, actions, x, key, s.shared.book[key], t.shared.book[key]);
    } else {
      assert Explained(u, actions, x.w, s.workers[x.w]);
      OriginNew(u, actions, x.w, x.op.isReal, key, s.workers[x.w].e, t.shared.book[key]);
    }
  }

  /** A pending entry has a timeframe. */
  predicate Named(p: Phase) {
    PendingOf(p).Some? ==> PendingOf(p).value.timeframe != ""
  }

  lemma KeyNotRegistered(s: State, x: Action, key: PosKey)
    requires IdsFresh(s) && key in s.shared.book
    ensures Closes.Of(Closes.RegisteredBy(s, x), key) == 0.0
  {
  }

  lemma ExplainedNamed(u: Setup, actions: seq<Action>, w: nat)
    requires AllExplained(u, actions) && w < |At(u, actions).workers|
    ensures Named(At(u, actions).workers[w])
  {
    var p := At(u, actions).workers[w];
    assert Explained(u, actions, w, p);
    hide At;
    if PendingOf(p).Some? {
      var e := PendingOf(p).value;
      var i, j, sig, op :| EntryBy(u, actions, w, i, j, sig, op, e);
    }
  }

  lemma {:induction false} EveryRunOriginates(u: Setup, actions: seq<Action>)
    requires Start(u.s)
    ensures AllOriginate(u, actions) && UsedIds(u, actions) && IdsFresh(At(u, actions))
  {
    hide AllOriginate, UsedIds, At;
    if actions == [] {
      NothingRegistered(u);
    } else {
      var n := |actions| - 1;
      var init, x := actions[..n], actions[n];
      assert actions == init + [x];
      EveryRunOriginates(u, init);
      EveryWorkerExplained(u, init);
      UsedIdsStep(u, init, x);
      AtSnoc(u, init, x);
      IdsStep(u.cfg, u.shadowMode, At(u, init), x);
      AllStep(u, init, x);
    }
  }

  lemma NothingRegistered(u: Setup)
    requires Start(u.s)
    ensures AllOriginate(u, []) && UsedIds(u, []) && IdsFresh(At(u, []))
  {
  }

  lemma AllStep(u: Setup, actions: seq<Action>, x: Action)
    requires AllExplained(u, actions) && AllOriginate(u, actions) && UsedIds(u, actions) && IdsFresh(At(u, actions))
    ensures AllOriginate(u, actions + [x])
  {
    hide At, AllExplained, UsedIds, HasOrigin, IdsFresh;
    forall w | 0 <= w < |At(u, actions).workers|
      ensures Named(At(u, actions).workers[w])
    {
      ExplainedNamed(u, actions, w);
    }
    forall key | key in At(u, actions + [x]).shared.book && key !in u.s.shared.book
      ensures HasOrigin(u, actions + [x], key, At(u, actions + [x]).shared.book[key])
    {
      OriginatesStep(u, actions, x, key);
    }
  }

  /**
   In every interleaving, every position that was not there at the start is what some worker took as an
   entry signal, had allowed by the check and registered, all in one stint: its symbol, price and timeframe
   are the signal's, its side long for a buy and short otherwise, its leverage and stop those checked, and its
   quantity the one checked less what has been booked as closed.
   */
  lemma EveryPositionHasItsEntry(u: Setup, actions: seq<Action>, key: PosKey)
    requires Start(u.s) && key in At(u, actions).shared.book && key !in u.s.shared.book
    ensures exists c ::
              && Origin(u, actions, key, At(u, actions).shared.book[key], c)
              && At(u, actions).shared.book[key].quantity == c.e.quantity - Booked(u, actions, key)
  {
    hide HasOrigin, Origin, At, Registered, Booked, UsedIds, IdsFresh, Start;
    EveryRunOriginates(u, actions);
    OpenAndBooked(u, actions, key);
    OriginBooked(u, actions, key, At(u, actions).shared.book[key]);
  }

  lemma OpenAndBooked(u: Setup, actions: seq<Action>, key: PosKey)
    requires Start(u.s) && key in At(u, actions).shared.book && key !in u.s.shared.book
    ensures Booked(u, actions, key) + At(u, actions).shared.book[key].quantity == Registered(u, actions, key)
  {
    Closes.IdleStartHolds(u.s);
    Closes.EveryInterleavingBalances(u.cfg, u.shadowMode, u.s, actions, key);
    hide Run, Closes.Registered, Closes.Booked, Closes.Inv;
  }

  lemma OriginBooked(u: Setup, actions: seq<Action>, key: PosKey, p: Position)
    requires HasOrigin(u, actions, key, p)
    requires Booked(u, actions, key) + p.quantity == Registered(u, actions, key)
    ensures exists c :: Origin(u, actions, key, p, c) && p.quantity == c.e.quantity - Booked(u, actions, key)
  {
    hide Origin, Registered, Booked;
  }

  // ---- Changes ----

  /** What a close at the level leaves of the position: 67% at TP1, half at TP2, otherwise nothing. */
  ghost predicate Left(before: Position, level: Level, book: Book, key: PosKey) {
    match level
    case TP1 => key in book && book[key] == before.(quantity := 0.67 * before.quantity)
    case TP2 => key in book && book[key] == before.(quantity := 0.5 * before.quantity)
    case TP3 => key !in book
    case SL => key !in book
  }

  /** The action is the close of the position that its worker has found. */
  predicate ClosesFound(s: State, x: Action, key: PosKey) {
    x.Act? && x.op.Close? && x.w < |s.workers| && s.workers[x.w].Matched? && s.workers[x.w].key == key
  }

  /** Only an external close and a worker's close of the position it found can change a position. */
  lemma ChangersOf(cfg: Config, shadowMode: bool, s: State, x: Action, key: PosKey)
    requires key in s.shared.book && IdsFresh(s)
    ensures var book := Step(cfg, shadowMode, s, x).shared.book;
            if ClosesFound(s, x, key)
            then book == if IsFull(s.workers[x.w].level) then s.shared.book - {key}
                         else Reduce(s.shared.book, key, s.workers[x.w].amount)
            else (key in book && book[key] == s.shared.book[key]) || (x == ExternalClose(key) && key !in book)
  {
    hide Decide, Conflicts, PositionOf, CloseRatio, EntryOf, Reduce;
    ReduceElsewhere(s.shared.book, key);
  }

  lemma ReduceElsewhere(book: Book, key: PosKey)
    ensures forall k, amount :: k != key && key in book ==>
                                  key in Reduce(book, k, amount) && Reduce(book, k, amount)[key] == book[key]
  {
  }

  lemma LeftAfter(book: Book, key: PosKey, level: Level, amount: real, after: Book)
    requires key in book && book[key].quantity > 0.0 && amount == book[key].quantity * CloseRatio(level)
    requires after == if IsFull(level) then book - {key} else Reduce(book, key, amount)
    ensures Left(book[key], level, after, key)
  {
  }

  /**
   In every interleaving, a position changes or goes only by an external close, or by a worker that took a
   close signal for its symbol and for its side, bullish for a long; then exactly the level's share is left.
   */
  lemma EveryChangeHasItsCause(u: Setup, actions: seq<Action>, x: Action, key: PosKey)
    requires Start(u.s) && key in At(u, actions).shared.book
    ensures var before, after := At(u, actions).shared.book, At(u, actions + [x]).shared.book;
            || (key in after && after[key] == before[key])
            || (x == ExternalClose(key) && key !in after)
            || exists w, i, sig, level ::
                 && x == Act(w, Close) && CloseBy(u, actions, w, i, sig, before[key].symbol, before[key].side, level)
                 && Left(before[key], level, after, key)
  {
    hide At, Run, AllExplained, Step, Closes.Inv, Start, Reduce, CloseRatio, IsFull, Left, CloseBy, Closes.Booked,
      Closes.Registered;
    var s := At(u, actions);
    ReadsInRun(u, actions, key);
    EveryWorkerExplained(u, actions);
    AtSnoc(u, actions, x);
    ChangersOf(u.cfg, u.shadowMode, s, x, key);
    if ClosesFound(s, x, key) {
      FoundAsRead(u, actions, x.w, key);
      LeftAfter(s.shared.book, key, s.workers[x.w].level, s.workers[x.w].amount, At(u, actions + [x]).shared.book);
    }
  }

  lemma ReadsInRun(u: Setup, actions: seq<Action>, key: PosKey)
    requires Start(u.s)
    ensures Closes.Inv(At(u, actions)) && IdsFresh(At(u, actions))
  {
    Closes.IdleStartHolds(u.s);
    Closes.EveryInterleavingBalances(u.cfg, u.shadowMode, u.s, actions, key);
    hide Run;
  }

  /** What a worker found is of the symbol and side its signal closes, with the share of its quantity still right. */
  lemma FoundAsRead(u: Setup, actions: seq<Action>, w: nat, key: PosKey)
    requires Closes.Inv(At(u, actions)) && AllExplained(u, actions) && w < |At(u, actions).workers|
    requires key in At(u, actions).shared.book
    requires At(u, actions).workers[w].Matched? && At(u, actions).workers[w].key == key
    ensures var p, held := At(u, actions).workers[w], At(u, actions).shared.book[key];
            && held.quantity > 0.0 && p.amount == held.quantity * CloseRatio(p.level)
            && exists i, sig :: CloseBy(u, actions, w, i, sig, held.symbol, held.side, p.level)
  {
    hide At, CloseRatio, CloseBy, Closes.Inv;
    Closes.ReadAt(At(u, actions), w);
    Closes.QuantitiesPositive(At(u, actions));
    assert Explained(u, actions, w, At(u, actions).workers[w]);
  }

  /** Each order that a worker sends, accepted or not, uses up one order id, and nothing else does. */
  lemma OrdersTakeIds(cfg: Config, shadowMode: bool, s: State, x: Action)
    ensures var sends := x.Act? && (x.op.OrderAccepted? || x.op.OrderRejected?) && x.w < |s.workers|
                         && s.workers[x.w].Admitted?;
            Step(cfg, shadowMode, s, x).shared.nextOid == s.shared.nextOid + if sends then 1 else 0
  {
    hide Decide, Conflicts, PositionOf, CloseRatio, EntryOf, Reduce;
  }

  // ---- A worker that nobody disturbs ----

  /**
   An entry goes through, in either mode, when its lock is free, no position is on its symbol and the
   check allows it.
   */
  lemma UndisturbedEntry(u: Setup, w: nat, sig: Signal, op: Op, e: Entry, isReal: bool)
    requires w < |u.s.workers| && u.s.workers[w].Idle? && sig.EntrySignal? && sig.price > 0.0
    requires op.CheckEntry? && op.quantity > 0.0 && Answers(e, sig, op)
    requires sig.symbol !in u.s.shared.locked && forall k :: k in u.s.shared.book ==>
                                                               u.s.shared.book[k].symbol != sig.symbol
    requires Decide(u.cfg, u.shadowMode, op.breakerHolds, u.s.shared.balance, u.s.shared.book, e).Allowed?
    ensures var t := At(u, [Act(w, Take(sig)), Act(w, LockAcquired), Act(w, op), Act(w, OrderAccepted),
                            Act(w, Register(isReal)), Act(w, Unlock)]);
            && t.workers == u.s.workers && t.shared.locked == u.s.shared.locked
            && t.shared.balance == u.s.shared.balance
            && t.shared.nextOid == u.s.shared.nextOid + 1
            && t.shared.book == u.s.shared.book[Opened(e.symbol, e.timeframe, u.s.shared.nextOid) :=
                                Position(e.symbol, e.timeframe, e.side, e.price, e.quantity, e.leverage, e.slPrice,
                                         0.0, "",
                                         "unknown", 0,
                                         isReal, "bitget", "futures")]
  {
    hide Decide, Conflicts, Run;
    NoConflict(u.s.shared.book, sig.symbol, e.side);
    assert e == EntryOf(sig, op);
    var a1, a2, a3, a4, a5, a6 := Act(w, Take(sig)), Act(w, LockAcquired), Act(w, op), Act(w, OrderAccepted),
                                  Act(w, Register(isReal)), Act(w, Unlock);
    AtSix(u, a1, a2, a3, a4, a5, a6);
    hide At;
  }

  lemma NoConflict(book: Book, symbol: string, side: string)
    requires forall k :: k in book ==> book[k].symbol != symbol
    ensures !Conflicts(book, symbol, side)
  {
  }

  ghost function Then(u: Setup, s: State, x: Action): State {
    Step(u.cfg, u.shadowMode, s, x)
  }

  lemma AtSix(u: Setup, a1: Action, a2: Action, a3: Action, a4: Action, a5: Action, a6: Action)
    ensures At(u, [a1, a2, a3, a4, a5, a6]) ==
            Then(u, Then(u, Then(u, Then(u, Then(u, Then(u, u.s, a1), a2), a3), a4), a5), a6)
  {
    hide Step;
    AtFive(u, a1, a2, a3, a4, a5);
    AtSnoc(u, [a1, a2, a3, a4, a5], a6);
    assert [a1, a2, a3, a4, a5] + [a6] == [a1, a2, a3, a4, a5, a6];
  }

  lemma AtFive(u: Setup, a1: Action, a2: Action, a3: Action, a4: Action, a5: Action)
    ensures At(u, [a1, a2, a3, a4, a5]) == Then(u, Then(u, Then(u, Then(u, Then(u, u.s, a1), a2), a3), a4), a5)
  {
    hide Step;
    AtSnoc(u, [], a1);
    AtSnoc(u, [a1], a2);
    AtSnoc(u, [a1, a2], a3);
    AtSnoc(u, [a1, a2, a3], a4);
    AtSnoc(u, [a1, a2, a3, a4], a5);
    assert [] + [a1] == [a1] && [a1] + [a2] == [a1, a2] && [a1, a2] + [a3] == [a1, a2, a3];
    assert [a1, a2, a3] + [a4] == [a1, a2, a3, a4] && [a1, a2, a3, a4] + [a5] == [a1, a2, a3, a4, a5];
  }

  /** A worker that gives up, at whatever point, leaves everything as it found it. */
  lemma GivingUpUndoes(u: Setup, w: nat, sig: Signal, key: PosKey)
    requires w < |u.s.workers| && u.s.workers[w].Idle? && sig.symbol !in u.s.shared.locked
    requires sig.EntrySignal? ==> sig.price > 0.0
    ensures At(u, [Act(w, Take(sig)), Act(w, LockTimeout)]) == u.s
    ensures At(u, [Act(w, Take(sig)), Act(w, LockAcquired), Act(w, Skip), Act(w, Unlock)]) == u.s
    ensures sig.CloseSignal? && key in u.s.shared.book && u.s.shared.book[key].symbol == sig.symbol
            && u.s.shared.book[key].side == HoldSide(sig.direction) ==>
              At(u, [Act(w, Take(sig)), Act(w, LockAcquired), Act(w, FindMatch(key)), Act(w, CloseFailed),
                     Act(w, Unlock)]) == u.s
  {
    var take, lock, unlock := Act(w, Take(sig)), Act(w, LockAcquired), Act(w, Unlock);
    AtTwo(u, take, Act(w, LockTimeout));
    AtFour(u, take, lock, Act(w, Skip), unlock);
    AtFive(u, take, lock, Act(w, FindMatch(key)), Act(w, CloseFailed), unlock);
    hide At, Run, Decide, Conflicts;
    assert u.s.workers[w := Waiting(sig)][w := Holding(sig)][w := Idle] == u.s.workers;
    assert u.s.shared.locked + {sig.symbol} - {sig.symbol} == u.s.shared.locked;
  }

  /** So does an entry that is blocked, or whose order is rejected, but for the order's id. */
  lemma FailedEntryUndoes(u: Setup, w: nat, sig: Signal, op: Op, e: Entry)
    requires w < |u.s.workers| && u.s.workers[w].Idle? && sig.symbol !in u.s.shared.locked
    requires sig.EntrySignal? && sig.price > 0.0 && op.CheckEntry? && op.quantity > 0.0 && Answers(e, sig, op)
    ensures var free := forall k :: k in u.s.shared.book ==>
                                      u.s.shared.book[k].symbol != sig.symbol || !SideOk(u.s.shared.book[k].side);
            var allowed := Decide(u.cfg, u.shadowMode, op.breakerHolds, u.s.shared.balance, u.s.shared.book,
                                  e).Allowed?;
            if free && allowed
            then At(u, [Act(w, Take(sig)), Act(w, LockAcquired), Act(w, op), Act(w, OrderRejected), Act(w, Unlock)])
              == u.s.(shared := u.s.shared.(nextOid := u.s.shared.nextOid + 1))
            else At(u, [Act(w, Take(sig)), Act(w, LockAcquired), Act(w, op), Act(w, Unlock)]) == u.s
  {
    var take, lock, unlock := Act(w, Take(sig)), Act(w, LockAcquired), Act(w, Unlock);
    assert e == EntryOf(sig, op);
    ConflictsIff(u.s.shared.book, sig.symbol, e.side);
    hide At, Run, Decide, Conflicts, Answers;
    AtFour(u, take, lock, Act(w, op), unlock);
    AtFive(u, take, lock, Act(w, op), Act(w, OrderRejected), unlock);
    var holding := u.s.(workers := u.s.workers[w := Holding(sig)],
    shared := u.s.shared.(locked := u.s.shared.locked + {sig.symbol}));
    assert Then(u, Then(u, u.s, take), lock) == holding;
    FailedCheckUndoes(u, holding, w, sig, op, e);
    assert u.s.workers[w := Idle] == u.s.workers;
    assert holding.workers[w := Idle] == u.s.workers;
    assert holding.shared.locked - {sig.symbol} == u.s.shared.locked;
    hide Step;
  }

  /** The second half of such an entry, from where its worker holds the lock. */
  lemma FailedCheckUndoes(u: Setup, s: State, w: nat, sig: Signal, op: Op, e: Entry)
    requires w < |s.workers| && s.workers[w] == Holding(sig) && sig.EntrySignal? && op.CheckEntry? && op.quantity > 0.0
    requires e == EntryOf(sig, op)
    ensures var end := s.(workers := s.workers[w := Idle],
                       shared := s.shared.(locked := s.shared.locked - {sig.symbol}));
            if !Conflicts(s.shared.book, sig.symbol, e.side)
               && Decide(u.cfg, u.shadowMode, op.breakerHolds, s.shared.balance, s.shared.book, e).Allowed?
            then Then(u, Then(u, Then(u, s, Act(w, op)), Act(w, OrderRejected)), Act(w, Unlock))
              == end.(shared := end.shared.(nextOid := s.shared.nextOid + 1))
            else Then(u, Then(u, s, Act(w, op)), Act(w, Unlock)) == end
  {
    hide Decide, Conflicts;
  }

  lemma AtTwo(u: Setup, a1: Action, a2: Action)
    ensures At(u, [a1, a2]) == Then(u, Then(u, u.s, a1), a2)
  {
    hide Step;
    AtSnoc(u, [], a1);
    AtSnoc(u, [a1], a2);
    assert [] + [a1] == [a1] && [a1] + [a2] == [a1, a2];
  }

  lemma AtFour(u: Setup, a1: Action, a2: Action, a3: Action, a4: Action)
    ensures At(u, [a1, a2, a3, a4]) == Then(u, Then(u, Then(u, Then(u, u.s, a1), a2), a3), a4)
  {
    hide Step;
    AtTwo(u, a1, a2);
    AtSnoc(u, [a1, a2], a3);
    AtSnoc(u, [a1, a2, a3], a4);
    assert [a1, a2] + [a3] == [a1, a2, a3] && [a1, a2, a3] + [a4] == [a1, a2, a3, a4];
  }

  /** A close signal closes its share of a position of its symbol and side that the worker comes across. */
  lemma UndisturbedClose(u: Setup, w: nat, sig: Signal, key: PosKey)
    requires w < |u.s.workers| && u.s.workers[w].Idle? && sig.CloseSignal? && sig.symbol !in u.s.shared.locked
    requires key in u.s.shared.book && u.s.shared.book[key].quantity > 0.0 && u.s.shared.book[key].symbol == sig.symbol
    requires u.s.shared.book[key].side == if sig.direction == "bull" then "long" else "short"
    ensures var t := At(u,
                        [Act(w, Take(sig)), Act(w, LockAcquired), Act(w, FindMatch(key)), Act(w, Close),
                         Act(w, Unlock)]);
            && t.workers == u.s.workers && t.shared == u.s.shared.(book := t.shared.book)
            && Left(u.s.shared.book[key], sig.level, t.shared.book, key)
            && t.shared.book - {key} == u.s.shared.book - {key}
  {
    hide Run, CloseRatio, Left, Reduce;
    var a1, a2, a3, a4, a5 := Act(w, Take(sig)), Act(w, LockAcquired), Act(w, FindMatch(key)), Act(w, Close),
                              Act(w, Unlock);
    AtFive(u, a1, a2, a3, a4, a5);
    hide At;
    OthersStay(u.s.shared.book, key, u.s.shared.book[key].quantity * CloseRatio(sig.level));
    var t := Then(u, Then(u, Then(u, Then(u, Then(u, u.s, a1), a2), a3), a4), a5);
    assert Then(u, Then(u, u.s, a1), a2).workers[w] == Holding(sig);
    var found := Then(u, Then(u, Then(u, u.s, a1), a2), a3);
    var amount := u.s.shared.book[key].quantity * CloseRatio(sig.level);
    assert found.workers[w] == Matched(sig.symbol, HoldSide(sig.direction), key, amount, sig.level);
    var closed := Then(u, found, a4);
    assert closed.workers[w] == Leaving(sig.symbol);
    assert closed.shared.book == if IsFull(sig.level) then u.s.shared.book - {key}
                                 else Reduce(u.s.shared.book, key, amount);
    assert t == Then(u, closed, a5);
    assert t.shared.book == closed.shared.book;
    LeftAfter(u.s.shared.book, key, sig.level, amount, t.shared.book);
  }

  lemma OthersStay(book: Book, key: PosKey, amount: real)
    ensures Reduce(book, key, amount) - {key} == book - {key} && book - {key} - {key} == book - {key}
  {
  }
}
