/**
 Concurrent admission. W workers take signals, hold a per-symbol lock while they scan, check,
 order and register, and share the book under a mutex that they take for one step at a time.
 Each constructor of Action is one such atomic step; a run is any sequence of them, so a
 theorem about every run is a theorem about every interleaving.
 */
module Admission {
  import opened FiniteSums
  import opened PortfolioRisk
  import opened SymbolLocks

  datatype Level = TP1 | TP2 | TP3 | SL

  datatype Signal =
    | EntrySignal(symbol: string, timeframe: string, action: string, price: real)
    | CloseSignal(symbol: string, direction: string, level: Level)

  /** Where a worker stands between two atomic steps. */
  datatype Phase =
    | Idle
    | Waiting(sig: Signal)                          // wants the symbol lock
    | Holding(sig: Signal)                          // holds it, nothing checked yet
    | Admitted(e: Entry)                            // passed scans and check, not yet ordered
    | Ordered(e: Entry, oid: nat)                   // order accepted or simulated, not yet registered
    | Matched(symbol: string, side: string, key: PosKey, amount: real, level: Level)   // has read the quantity
    | Leaving(symbol: string)                       // about to run the lock guard's destructor

  /** What all workers share: the lock manager's set, the book, the id counter and the balance. */
  datatype Shared = Shared(locked: set<string>, book: Book, nextOid: nat, balance: real)

  datatype State = State(workers: seq<Phase>, shared: Shared)

  datatype Op =
    | Take(sig: Signal)
    | LockAcquired
    | LockTimeout
    | Skip                                          // any filter that gives up while the lock is held
    | CheckEntry(quantity: real, leverage: Leverage, slPrice: real, breakerHolds: bool)
    | OrderRejected                                 // pre-order validation or the exchange refuses
    | OrderAccepted
    | Register(isReal: bool)
    | FindMatch(key: PosKey)
    | CloseFailed
    | Close
    | Unlock

  datatype Action =
    | Act(w: nat, op: Op)
    | ExternalClose(key: PosKey)                    // WebSocket callback, close-all or emergency close
    | BalanceUpdate(balance: real)

  predicate Opposite(a: string, b: string) {
    if a == "long" then b == "short" else b == "long"
  }

  /** The two scans of steps 5a and 5b: some position on the symbol, opposite or same side. */
  ghost predicate Conflicts(book: Book, symbol: string, side: string) {
    exists k :: k in book && book[k].symbol == symbol && (book[k].side == side || Opposite(side, book[k].side))
  }

  /** For an entry of either direction that is any position of the symbol with one of the two sides. */
  lemma ConflictsIff(book: Book, symbol: string, side: string)
    requires side == "long" || side == "short"
    ensures Conflicts(book, symbol, side) <==>
            exists k :: k in book && book[k].symbol == symbol && (book[k].side == "long" || book[k].side == "short")
  {
  }

  function CloseRatio(level: Level): real {
    match level
    case TP1 => 0.33
    case TP2 => 0.50
    case _ => 1.0
  }

  predicate IsFull(level: Level) {
    level.TP3? || level.SL?
  }

  function EntrySide(action: string): string {
    if action == "buy" then "long" else "short"
  }

  function EntryOf(sig: Signal, op: Op): Entry
    requires sig.EntrySignal? && op.CheckEntry?
  {
    Entry(sig.symbol, if sig.timeframe == "" then "unknown" else sig.timeframe,
          sig.price, op.quantity, op.leverage, op.slPrice, EntrySide(sig.action))
  }

  /** One atomic step of one worker. A step the worker's phase does not enable changes nothing. */
  ghost function Local(cfg: Config, shadowMode: bool, s: Shared, p: Phase, op: Op): (Shared, Phase) {
    match op
    case Take(sig) =>
      if !p.Idle? || (sig.EntrySignal? && sig.price <= 0.0) then (s, p) else (s, Waiting(sig))
    case LockAcquired =>
      if !p.Waiting? || p.sig.symbol in s.locked then (s, p)
      else (s.(locked := s.locked + {p.sig.symbol}), Holding(p.sig))
    case LockTimeout =>
      if !p.Waiting? then (s, p) else (s, Idle)
    case Skip =>
      if !p.Holding? then (s, p) else (s, Leaving(p.sig.symbol))
    case CheckEntry(quantity, _, _, breakerHolds) =>
      if !p.Holding? || !p.sig.EntrySignal? || quantity <= 0.0 then (s, p)
      else
        var e := EntryOf(p.sig, op);
        if Conflicts(s.book, e.symbol, e.side) || !Decide(cfg, shadowMode, breakerHolds, s.balance, s.book, e).Allowed?
        then (s, Leaving(e.symbol))
        else (s, Admitted(e))
    case OrderRejected =>
      if !p.Admitted? then (s, p) else (s.(nextOid := s.nextOid + 1), Leaving(p.e.symbol))
    case OrderAccepted =>
      if !p.Admitted? then (s, p) else (s.(nextOid := s.nextOid + 1), Ordered(p.e, s.nextOid))
    case Register(isReal) =>
      if !p.Ordered? then (s, p)
      else (s.(book := s.book[Opened(p.e.symbol, p.e.timeframe, p.oid) := PositionOf(p.e).(isReal := isReal)]),
            Leaving(p.e.symbol))
    case FindMatch(key) =>
      if !p.Holding? || !p.sig.CloseSignal? || key !in s.book
         || s.book[key].symbol != p.sig.symbol || s.book[key].side != HoldSide(p.sig.direction)
      then (s, p)
      else (s, Matched(p.sig.symbol, HoldSide(p.sig.direction), key, s.book[key].quantity * CloseRatio(p.sig.level),
            p.sig.level))
    case CloseFailed =>
      if !p.Matched? then (s, p) else (s, Leaving(p.symbol))
    case Close =>
      if !p.Matched? then (s, p)
      else (s.(book := if IsFull(p.level) then s.book - {p.key} else Reduce(s.book, p.key, p.amount)),
            Leaving(p.symbol))
    case Unlock =>
      if !p.Leaving? then (s, p) else (s.(locked := s.locked - {p.symbol}), Idle)
  }

  ghost function Step(cfg: Config, shadowMode: bool, s: State, a: Action): State {
    match a
    case ExternalClose(key) => s.(shared := s.shared.(book := s.shared.book - {key}))
    case BalanceUpdate(b) => s.(shared := s.shared.(balance := b))
    case Act(w, op) =>
      if w >= |s.workers| then s
      else
        var r := Local(cfg, shadowMode, s.shared, s.workers[w], op);
        State(s.workers[w := r.1], r.0)
  }

  ghost function Run(cfg: Config, shadowMode: bool, s: State, actions: seq<Action>): State {
    if actions == [] then s
    else Step(cfg, shadowMode, Run(cfg, shadowMode, s, actions[..|actions| - 1]), actions[|actions| - 1])
  }

  // ---- Mutual exclusion and one position per symbol ----

  /** The symbol whose lock the worker holds. */
  function Held(p: Phase): Option<string> {
    match p
    case Idle => None
    case Waiting(_) => None
    case Holding(sig) => Some(sig.symbol)
    case Admitted(e) => Some(e.symbol)
    case Ordered(e, _) => Some(e.symbol)
    case Matched(symbol, _, _, _, _) => Some(symbol)
    case Leaving(symbol) => Some(symbol)
  }

  /** No two workers hold the lock of one symbol, and every held symbol is in the manager's set. */
  ghost predicate Exclusive(s: State) {
    && (forall w :: 0 <= w < |s.workers| && Held(s.workers[w]).Some? ==> Held(s.workers[w]).value in s.shared.locked)
    && (forall v, w :: 0 <= v < w < |s.workers| && Held(s.workers[v]).Some? ==>
                         Held(s.workers[v]) != Held(s.workers[w]))
  }

  /** At most one position per symbol, in either direction. */
  ghost predicate OnePerSymbol(book: Book) {
    forall j, k :: j in book && k in book && book[j].symbol == book[k].symbol ==> j == k
  }

  predicate SideOk(side: string) {
    side == "long" || side == "short"
  }

  ghost predicate SidesOk(book: Book) {
    forall k :: k in book ==> SideOk(book[k].side)
  }

  /** The checked but unregistered entry a worker carries. */
  function PendingOf(p: Phase): Option<Entry> {
    match p
    case Admitted(e) => Some(e)
    case Ordered(e, _) => Some(e)
    case _ => None
  }

  /** No position exists on the symbol of a pending entry. */
  ghost predicate PendingClear(s: State) {
    forall w, k :: 0 <= w < |s.workers| && PendingOf(s.workers[w]).Some? && k in s.shared.book ==>
                     s.shared.book[k].symbol != PendingOf(s.workers[w]).value.symbol
  }

  ghost predicate ExclusivityInv(s: State) {
    Exclusive(s) && OnePerSymbol(s.shared.book) && SidesOk(s.shared.book) && PendingClear(s) && PendingSides(s)
  }

  ghost predicate PendingSides(s: State) {
    forall w :: 0 <= w < |s.workers| && PendingOf(s.workers[w]).Some? ==> SideOk(PendingOf(s.workers[w]).value.side)
  }

  /** A worker's step leaves what it holds as it is, takes one free lock, or gives up the one it holds. */
  ghost predicate LockEffect(s: Shared, p: Phase, t: Shared, q: Phase) {
    || (Held(q) == Held(p) && t.locked == s.locked)
    || (Held(p).None? && Held(q).Some? && Held(q).value !in s.locked && t.locked == s.locked + {Held(q).value})
    || (Held(p).Some? && Held(q).None? && t.locked == s.locked - {Held(p).value})
  }

  lemma LocksOf(cfg: Config, shadowMode: bool, s: Shared, p: Phase, op: Op)
    ensures var r := Local(cfg, shadowMode, s, p, op); LockEffect(s, p, r.0, r.1)
  {
    hide Decide, Conflicts, Reduce, PositionOf;
  }

  lemma ExclusiveStep(cfg: Config, shadowMode: bool, s: State, a: Action)
    requires Exclusive(s)
    ensures Exclusive(Step(cfg, shadowMode, s, a))
  {
    hide Local, Held;
    if a.Act? && a.w < |s.workers| {
      LocksOf(cfg, shadowMode, s.shared, s.workers[a.w], a.op);
      ExclusiveAfter(s, Step(cfg, shadowMode, s, a), a.w);
    }
  }

  lemma ExclusiveAfter(s: State, t: State, w: nat)
    requires Exclusive(s) && w < |s.workers| == |t.workers|
    requires t.workers == s.workers[w := t.workers[w]]
    requires LockEffect(s.shared, s.workers[w], t.shared, t.workers[w])
    ensures Exclusive(t)
  {
    hide Held;
  }

  /** `after` has no position that `before` had not, and none changed symbol or side. */
  ghost predicate Narrowed(after: Book, before: Book) {
    && after.Keys <= before.Keys
    && forall k :: k in after ==> after[k].symbol == before[k].symbol && after[k].side == before[k].side
  }

  lemma NarrowingKeeps(s: State, t: State)
    requires ExclusivityInv(s) && Exclusive(t) && Narrowed(t.shared.book, s.shared.book)
    requires |t.workers| == |s.workers|
    requires forall w :: 0 <= w < |s.workers| ==>
                           PendingOf(t.workers[w]).None? || PendingOf(t.workers[w]) == PendingOf(s.workers[w])
    ensures ExclusivityInv(t)
  {
    forall w, k | 0 <= w < |t.workers| && PendingOf(t.workers[w]).Some? && k in t.shared.book
      ensures t.shared.book[k].symbol != PendingOf(t.workers[w]).value.symbol
    {
      assert PendingOf(t.workers[w]) == PendingOf(s.workers[w]);
      assert k in s.shared.book;
    }
    forall w | 0 <= w < |t.workers| && PendingOf(t.workers[w]).Some?
      ensures SideOk(PendingOf(t.workers[w]).value.side)
    {
      assert PendingOf(t.workers[w]) == PendingOf(s.workers[w]);
    }
  }

  lemma CheckKeeps(cfg: Config, shadowMode: bool, s: State, w: nat, op: Op)
    requires ExclusivityInv(s) && op.CheckEntry?
    ensures ExclusivityInv(Step(cfg, shadowMode, s, Act(w, op)))
  {
    ExclusiveStep(cfg, shadowMode, s, Act(w, op));
    hide Decide, ExclusivityInv, Exclusive, Conflicts;
    var t := Step(cfg, shadowMode, s, Act(w, op));
    if w < |s.workers| && t.workers[w].Admitted? && !s.workers[w].Admitted? {
      AdmittedKeeps(s, t, w, t.workers[w].e);
    } else {
      NarrowingKeeps(s, t);
    }
  }

  /** An entry admitted without a conflict is on a symbol without positions. */
  lemma AdmittedKeeps(s: State, t: State, w: nat, e: Entry)
    requires ExclusivityInv(s) && Exclusive(t) && w < |s.workers|
    requires t.workers == s.workers[w := Admitted(e)] && t.shared == s.shared
    requires !Conflicts(s.shared.book, e.symbol, e.side) && SideOk(e.side)
    ensures ExclusivityInv(t)
  {
    hide Exclusive;
    forall k | k in s.shared.book
      ensures s.shared.book[k].symbol != e.symbol
    {
      assert SideOk(s.shared.book[k].side);
    }
  }

  lemma RegisterKeeps(cfg: Config, shadowMode: bool, s: State, w: nat, op: Op)
    requires ExclusivityInv(s) && op.Register?
    ensures ExclusivityInv(Step(cfg, shadowMode, s, Act(w, op)))
  {
    ExclusiveStep(cfg, shadowMode, s, Act(w, op));
    var t := Step(cfg, shadowMode, s, Act(w, op));
    if w < |s.workers| && s.workers[w].Ordered? {
      var e := s.workers[w].e;
      assert PendingOf(s.workers[w]) == Some(e) && PendingOf(t.workers[w]).None?;
      var key := Opened(e.symbol, e.timeframe, s.workers[w].oid);
      assert t.shared.book == s.shared.book[key := PositionOf(e).(isReal := op.isReal)];
      hide Step;
      RegisteredKeeps(s, t, w, key, PositionOf(e).(isReal := op.isReal));
    } else {
      NarrowingKeeps(s, t);
    }
  }

  lemma RegisteredKeeps(s: State, t: State, w: nat, key: PosKey, p: Position)
    requires ExclusivityInv(s) && Exclusive(t) && w < |s.workers| && PendingOf(s.workers[w]).Some?
    requires |t.workers| == |s.workers| && t.workers == s.workers[w := t.workers[w]] && PendingOf(t.workers[w]).None?
    requires t.shared.book == s.shared.book[key := p]
    requires p.symbol == PendingOf(s.workers[w]).value.symbol && p.side == PendingOf(s.workers[w]).value.side
    ensures ExclusivityInv(t)
  {
    forall v, k | 0 <= v < |t.workers| && PendingOf(t.workers[v]).Some? && k in t.shared.book
      ensures t.shared.book[k].symbol != PendingOf(t.workers[v]).value.symbol
    {
      assert t.workers[v] == s.workers[v];
      assert Held(s.workers[v]) != Held(s.workers[w]);
      if k == key {
        PendingIsHeld(s.workers[v]);
        PendingIsHeld(s.workers[w]);
      }
    }
    hide Held, Exclusive;
  }

  lemma PendingIsHeld(p: Phase)
    requires PendingOf(p).Some?
    ensures Held(p) == Some(PendingOf(p).value.symbol)
  {
  }

  lemma OtherSteps(cfg: Config, shadowMode: bool, s: Shared, p: Phase, op: Op)
    requires !op.CheckEntry? && !op.Register?
    ensures var r := Local(cfg, shadowMode, s, p, op);
            Narrowed(r.0.book, s.book) && (PendingOf(r.1).None? || PendingOf(r.1) == PendingOf(p))
  {
    hide Decide, Conflicts, PositionOf;
  }

  lemma ExclusivityStep(cfg: Config, shadowMode: bool, s: State, a: Action)
    requires ExclusivityInv(s)
    ensures ExclusivityInv(Step(cfg, shadowMode, s, a))
  {
    if a.Act? && a.op.CheckEntry? {
      CheckKeeps(cfg, shadowMode, s, a.w, a.op);
    } else if a.Act? && a.op.Register? {
      RegisterKeeps(cfg, shadowMode, s, a.w, a.op);
    } else {
      ExclusiveStep(cfg, shadowMode, s, a);
      if a.Act? && a.w < |s.workers| {
        OtherSteps(cfg, shadowMode, s.shared, s.workers[a.w], a.op);
      }
      hide Local, ExclusivityInv, Exclusive;
      NarrowingKeeps(s, Step(cfg, shadowMode, s, a));
    }
  }

  /**
   In every interleaving no symbol ever has two positions, neither duplicate nor opposite, and no
   lock two holders.
   */
  lemma {:induction false} SymbolExclusivity(cfg: Config, shadowMode: bool, s: State, actions: seq<Action>)
    requires OnePerSymbol(s.shared.book) && SidesOk(s.shared.book)
    requires forall w :: 0 <= w < |s.workers| ==> s.workers[w].Idle?
    ensures OnePerSymbol(Run(cfg, shadowMode, s, actions).shared.book)
    ensures Exclusive(Run(cfg, shadowMode, s, actions))
    ensures ExclusivityInv(Run(cfg, shadowMode, s, actions))
  {
    if actions == [] {
    } else {
      var n := |actions| - 1;
      SymbolExclusivity(cfg, shadowMode, s, actions[..n]);
      hide *;
      ExclusivityStep(cfg, shadowMode, Run(cfg, shadowMode, s, actions[..n]), actions[n]);
    }
  }

  // ---- The workers drive the lock manager ----

  ghost predicate HasHolder(s: State, symbol: string) {
    exists w :: 0 <= w < |s.workers| && Held(s.workers[w]) == Some(symbol)
  }

  /** Every locked symbol has a holder. */
  ghost predicate NoLeak(s: State) {
    forall x :: x in s.shared.locked ==> HasHolder(s, x)
  }

  ghost function HolderOf(s: State, symbol: string): (w: nat)
    requires HasHolder(s, symbol)
    ensures w < |s.workers| && Held(s.workers[w]) == Some(symbol)
  {
    var w :| 0 <= w < |s.workers| && Held(s.workers[w]) == Some(symbol);
    w
  }

  /** `h` maps each held symbol to the worker holding it. */
  ghost predicate IsHolders(s: State, h: map<string, nat>) {
    && (forall w :: 0 <= w < |s.workers| && Held(s.workers[w]).Some? ==>
                      Held(s.workers[w]).value in h && h[Held(s.workers[w]).value] == w)
    && (forall x :: x in h ==> h[x] < |s.workers| && Held(s.workers[h[x]]) == Some(x))
  }

  ghost function Holders(s: State): (h: map<string, nat>)
    requires Exclusive(s)
    ensures IsHolders(s, h)
  {
    map x | x in s.shared.locked && HasHolder(s, x) :: HolderOf(s, x)
  }

  lemma HoldersUnique(s: State, h: map<string, nat>, k: map<string, nat>)
    requires IsHolders(s, h) && IsHolders(s, k)
    ensures h == k
  {
    forall x
      ensures x in h <==> x in k
      ensures x in h ==> h[x] == k[x]
    {
      if x in h {
        assert Held(s.workers[h[x]]) == Some(x);
      }
      if x in k {
        assert Held(s.workers[k[x]]) == Some(x);
      }
    }
  }

  lemma NoLeakStep(cfg: Config, shadowMode: bool, s: State, a: Action)
    requires NoLeak(s)
    ensures NoLeak(Step(cfg, shadowMode, s, a))
  {
    hide Local, Held;
    if a.Act? && a.w < |s.workers| {
      LocksOf(cfg, shadowMode, s.shared, s.workers[a.w], a.op);
      NoLeakAfter(s, Step(cfg, shadowMode, s, a), a.w);
    }
  }

  lemma NoLeakAfter(s: State, t: State, w: nat)
    requires NoLeak(s) && w < |s.workers| == |t.workers|
    requires t.workers == s.workers[w := t.workers[w]]
    requires LockEffect(s.shared, s.workers[w], t.shared, t.workers[w])
    ensures NoLeak(t)
  {
    hide Held;
    forall x | x in t.shared.locked
      ensures HasHolder(t, x)
    {
      if x in s.shared.locked {
        var v :| 0 <= v < |s.workers| && Held(s.workers[v]) == Some(x);
        assert Held(t.workers[v]) == Some(x);
      } else {
        assert Held(t.workers[w]) == Some(x);
      }
    }
  }

  /** In every interleaving the locked symbols are exactly the held ones, so no lock is ever lost. */
  lemma {:induction false} LocksAreHeld(cfg: Config, shadowMode: bool, s: State, actions: seq<Action>)
    requires Exclusive(s) && NoLeak(s)
    ensures Exclusive(Run(cfg, shadowMode, s, actions)) && NoLeak(Run(cfg, shadowMode, s, actions))
    ensures Holders(Run(cfg, shadowMode, s, actions)).Keys == Run(cfg, shadowMode, s, actions).shared.locked
  {
    if actions != [] {
      var n := |actions| - 1;
      LocksAreHeld(cfg, shadowMode, s, actions[..n]);
      ExclusiveStep(cfg, shadowMode, Run(cfg, shadowMode, s, actions[..n]), actions[n]);
      NoLeakStep(cfg, shadowMode, Run(cfg, shadowMode, s, actions[..n]), actions[n]);
      hide Step;
    }
    LockedIsHeld(Run(cfg, shadowMode, s, actions), Holders(Run(cfg, shadowMode, s, actions)));
  }

  /**
   The holders change only as the lock manager's methods say: by an attempt of the waiting worker,
   or by an unlock, which only the holder makes.
   */
  lemma StepsDriveTheLocks(cfg: Config, shadowMode: bool, s: State, w: nat, op: Op)
    requires Exclusive(s) && NoLeak(s) && w < |s.workers|
    ensures var t := Step(cfg, shadowMode, s, Act(w, op));
            && Exclusive(t)
            && (op.LockAcquired? && s.workers[w].Waiting? ==>
                  var symbol := s.workers[w].sig.symbol;
                  && Holders(t) == AfterAttempt(Holders(s), symbol, w)
                  && (t.workers[w].Holding? <==> symbol !in Holders(s)))
            && (op.Unlock? && s.workers[w].Leaving? ==>
                  var symbol := s.workers[w].symbol;
                  && symbol in Holders(s) && Holders(s)[symbol] == w
                  && Holders(t) == AfterUnlock(Holders(s), symbol))
            && (!op.LockAcquired? && !op.Unlock? ==> Holders(t) == Holders(s))
  {
    ExclusiveStep(cfg, shadowMode, s, Act(w, op));
    HeldAfter(cfg, shadowMode, s, w, op);
    LockedIsHeld(s, Holders(s));
    hide Step, Exclusive, Holders, IsHolders, NoLeak, Held;
    HoldersFollow(s, Step(cfg, shadowMode, s, Act(w, op)), w, op);
  }

  /** How the holders follow from what the worker holds before and after. */
  lemma HoldersFollow(s: State, t: State, w: nat, op: Op)
    requires Exclusive(s) && Exclusive(t) && Holders(s).Keys == s.shared.locked
    requires w < |s.workers| == |t.workers| && HeldChange(s, t, w, op)
    ensures var p := s.workers[w];
            && (op.LockAcquired? && p.Waiting? ==>
                  && Holders(t) == AfterAttempt(Holders(s), p.sig.symbol, w)
                  && (t.workers[w].Holding? <==> p.sig.symbol !in Holders(s)))
            && (op.Unlock? && p.Leaving? ==>
                  && p.symbol in Holders(s) && Holders(s)[p.symbol] == w
                  && Holders(t) == AfterUnlock(Holders(s), p.symbol))
            && (!op.LockAcquired? && !op.Unlock? ==> Holders(t) == Holders(s))
  {
    var p := s.workers[w];
    hide Exclusive, Holders, Held;
    if op.LockAcquired? && p.Waiting? {
      FollowAttempt(s, t, w, op);
    } else if op.Unlock? && p.Leaving? {
      FollowUnlock(s, t, w, op);
    } else if !op.LockAcquired? && !op.Unlock? {
      FollowOther(s, t, w, op);
    }
  }

  lemma FollowAttempt(s: State, t: State, w: nat, op: Op)
    requires Exclusive(s) && Exclusive(t) && Holders(s).Keys == s.shared.locked
    requires w < |s.workers| == |t.workers| && HeldChange(s, t, w, op) && op.LockAcquired? && s.workers[w].Waiting?
    ensures Holders(t) == AfterAttempt(Holders(s), s.workers[w].sig.symbol, w)
    ensures t.workers[w].Holding? <==> s.workers[w].sig.symbol !in Holders(s)
  {
    var p, h := s.workers[w], Holders(s);
    assert Held(p).None? && Held(Holding(p.sig)) == Some(p.sig.symbol);
    hide Exclusive, Holders, IsHolders, Held;
    if p.sig.symbol !in h {
      GainHolds(s, t, h, w, p.sig.symbol);
      HoldersUnique(t, Holders(t), h[p.sig.symbol := w]);
    } else {
      SameHolds(s, t, h);
      HoldersUnique(t, Holders(t), h);
    }
  }

  lemma FollowUnlock(s: State, t: State, w: nat, op: Op)
    requires Exclusive(s) && Exclusive(t)
    requires w < |s.workers| == |t.workers| && HeldChange(s, t, w, op) && op.Unlock? && s.workers[w].Leaving?
    ensures s.workers[w].symbol in Holders(s) && Holders(s)[s.workers[w].symbol] == w
    ensures Holders(t) == AfterUnlock(Holders(s), s.workers[w].symbol)
  {
    var p, h := s.workers[w], Holders(s);
    assert Held(p) == Some(p.symbol) && Held(Idle).None?;
    hide Exclusive, Holders, IsHolders, Held;
    LossHolds(s, t, h, w, p.symbol);
    HoldersUnique(t, Holders(t), h - {p.symbol});
  }

  lemma FollowOther(s: State, t: State, w: nat, op: Op)
    requires Exclusive(s) && Exclusive(t)
    requires w < |s.workers| == |t.workers| && HeldChange(s, t, w, op) && !op.LockAcquired? && !op.Unlock?
    ensures Holders(t) == Holders(s)
  {
    hide Exclusive, Holders, IsHolders, Held;
    SameHolds(s, t, Holders(s));
    HoldersUnique(t, Holders(t), Holders(s));
  }

  lemma SameHolds(s: State, t: State, h: map<string, nat>)
    requires IsHolders(s, h) && |t.workers| == |s.workers|
    requires forall v :: 0 <= v < |s.workers| ==> Held(t.workers[v]) == Held(s.workers[v])
    ensures IsHolders(t, h)
  {
    hide Held;
  }

  lemma GainHolds(s: State, t: State, h: map<string, nat>, w: nat, x: string)
    requires IsHolders(s, h) && |t.workers| == |s.workers| && w < |s.workers|
    requires forall v :: 0 <= v < |s.workers| && v != w ==> t.workers[v] == s.workers[v]
    requires Held(s.workers[w]).None? && x !in h && Held(t.workers[w]) == Some(x)
    ensures IsHolders(t, h[x := w])
  {
    hide Held;
  }

  lemma LossHolds(s: State, t: State, h: map<string, nat>, w: nat, x: string)
    requires IsHolders(s, h) && |t.workers| == |s.workers| && w < |s.workers|
    requires forall v :: 0 <= v < |s.workers| && v != w ==> t.workers[v] == s.workers[v]
    requires Held(s.workers[w]) == Some(x) && Held(t.workers[w]).None?
    ensures IsHolders(t, h - {x}) && x in h && h[x] == w
  {
    hide Held;
  }

  lemma LockedIsHeld(s: State, h: map<string, nat>)
    requires Exclusive(s) && NoLeak(s) && IsHolders(s, h)
    ensures s.shared.locked == h.Keys
  {
    forall x | x in s.shared.locked
      ensures x in h
    {
      assert HasHolder(s, x);
    }
  }

  ghost predicate HeldChange(s: State, t: State, w: nat, op: Op)
    requires w < |s.workers| == |t.workers|
  {
    var p := s.workers[w];
    && (forall v :: 0 <= v < |s.workers| && v != w ==> t.workers[v] == s.workers[v])
    && (op.LockAcquired? && p.Waiting? ==>
          t.workers[w] == if p.sig.symbol in s.shared.locked then p else Holding(p.sig))
    && (op.Unlock? && p.Leaving? ==> t.workers[w] == Idle)
    && (!op.LockAcquired? && !op.Unlock? ==> Held(t.workers[w]) == Held(p))
  }

  lemma HeldAfter(cfg: Config, shadowMode: bool, s: State, w: nat, op: Op)
    requires w < |s.workers|
    ensures |Step(cfg, shadowMode, s, Act(w, op)).workers| == |s.workers|
    ensures HeldChange(s, Step(cfg, shadowMode, s, Act(w, op)), w, op)
  {
    hide Decide, Conflicts, Reduce, PositionOf;
  }

  // ---- What stays true of phases, quantities and order ids ----

  ghost predicate PhaseOk(p: Phase) {
    && (PendingOf(p).Some? ==>
          var e := PendingOf(p).value;
          e.quantity > 0.0 && 0.0 <= Notional(e) && 0.0 <= EntryMargin(e) <= HARD_MAX_NOTIONAL)
    && (p.Waiting? && p.sig.EntrySignal? ==> p.sig.price > 0.0)
    && (p.Holding? && p.sig.EntrySignal? ==> p.sig.price > 0.0)
    && (p.Matched? ==> 0.0 <= p.amount)
  }

  /** Order ids name positions: nothing registered or about to be registered carries a future id or a shared one. */
  ghost predicate IdsFresh(s: State) {
    && (forall k :: k in s.shared.book && k.Opened? ==> k.oid < s.shared.nextOid)
    && (forall w :: 0 <= w < |s.workers| && s.workers[w].Ordered? ==>
                      s.workers[w].oid < s.shared.nextOid
                      && forall k :: k in s.shared.book && k.Opened? ==> k.oid != s.workers[w].oid)
    && (forall v, w :: 0 <= v < w < |s.workers| && s.workers[v].Ordered? && s.workers[w].Ordered? ==>
                         s.workers[v].oid != s.workers[w].oid)
  }

  ghost predicate Sound(s: State) {
    && (forall w :: 0 <= w < |s.workers| ==> PhaseOk(s.workers[w]))
    && (forall k :: k in s.shared.book ==> s.shared.book[k].quantity > 0.0)
    && IdsFresh(s)
  }

  lemma LocalKeepsPhase(cfg: Config, shadowMode: bool, s: Shared, p: Phase, op: Op)
    requires PhaseOk(p) && forall k :: k in s.book ==> s.book[k].quantity > 0.0
    ensures var r := Local(cfg, shadowMode, s, p, op);
            PhaseOk(r.1) && forall k :: k in r.0.book ==> r.0.book[k].quantity > 0.0
  {
    hide Conflicts, EntryMargin, SlPastLiquidation, TotalMargin, TfMargin, PctOf, Config.Correlated, Notional;
    if op.CheckEntry? && p.Holding? && p.sig.EntrySignal? && op.quantity > 0.0 {
      EntryHasNotional(EntryOf(p.sig, op));
      EntryMarginBounded(EntryOf(p.sig, op));
    }
  }

  lemma EntryMarginBounded(e: Entry)
    requires Notional(e) >= 0.0
    ensures 0.0 <= EntryMargin(e) <= Notional(e)
  {
    Quotient(Notional(e), Notional(e), e.leverage as real);
  }

  /**
   What a worker's step does to order ids: a new order takes the next one, a registration names its
   position by its own.
   */
  ghost predicate IdEffect(s: Shared, p: Phase, t: Shared, q: Phase) {
    && s.nextOid <= t.nextOid
    && (q.Ordered? ==> q == p || (q.oid == s.nextOid && s.nextOid < t.nextOid && t.book == s.book))
    && (forall k :: k in t.book && k !in s.book ==> p.Ordered? && !q.Ordered? && k.Opened? && k.oid == p.oid)
    && (q.Matched? ==> q == p || (q.key in s.book && t == s))
  }

  lemma IdsOf(cfg: Config, shadowMode: bool, s: Shared, p: Phase, op: Op)
    ensures var r := Local(cfg, shadowMode, s, p, op); IdEffect(s, p, r.0, r.1)
  {
    hide Decide, Conflicts, PositionOf, EntryOf, CloseRatio;
  }

  lemma IdsStep(cfg: Config, shadowMode: bool, s: State, a: Action)
    requires IdsFresh(s)
    ensures IdsFresh(Step(cfg, shadowMode, s, a))
  {
    hide Local;
    if a.Act? && a.w < |s.workers| {
      IdsOf(cfg, shadowMode, s.shared, s.workers[a.w], a.op);
      IdsAfter(s, Step(cfg, shadowMode, s, a), a.w);
    }
  }

  lemma IdsAfter(s: State, t: State, w: nat)
    requires IdsFresh(s) && w < |s.workers| == |t.workers|
    requires t.workers == s.workers[w := t.workers[w]]
    requires IdEffect(s.shared, s.workers[w], t.shared, t.workers[w])
    ensures IdsFresh(t)
  {
  }

  lemma SoundStep(cfg: Config, shadowMode: bool, s: State, a: Action)
    requires Sound(s)
    ensures Sound(Step(cfg, shadowMode, s, a))
  {
    IdsStep(cfg, shadowMode, s, a);
    if a.Act? && a.w < |s.workers| {
      LocalKeepsPhase(cfg, shadowMode, s.shared, s.workers[a.w], a.op);
    }
    hide Local, IdsFresh, PhaseOk;
  }
}
