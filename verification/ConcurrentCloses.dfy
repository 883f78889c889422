/**
 Closes under concurrency. A TP or SL reads the quantity in one critical section and books the close
 in a later one; in between, other workers move, and the exchange may close the position. What is
 booked for a position and what is open of it still make up what was registered.
 */
module ConcurrentCloses {
  import opened FiniteSums
  import opened PortfolioRisk
  import opened Admission

  datatype Amount = Amount(key: PosKey, quantity: real)

  /** What an action books as closed. A TP books the quantity it read earlier, the others what is there. */
  ghost function BookedBy(s: State, a: Action): Option<Amount> {
    match a
    case BalanceUpdate(_) => None
    case ExternalClose(key) => if key in s.shared.book then Some(Amount(key, s.shared.book[key].quantity)) else None
    case Act(w, op) =>
      if !op.Close? || w >= |s.workers| || !s.workers[w].Matched? || s.workers[w].key !in s.shared.book then None
      else
        var p := s.workers[w];
        Some(Amount(p.key, if p.level.SL? || p.amount <= 0.0 then s.shared.book[p.key].quantity else p.amount))
  }

  /** What an action registers. */
  ghost function RegisteredBy(s: State, a: Action): Option<Amount> {
    if a.Act? && a.op.Register? && a.w < |s.workers| && s.workers[a.w].Ordered? then
      var e := s.workers[a.w].e;
      Some(Amount(Opened(e.symbol, e.timeframe, s.workers[a.w].oid), e.quantity))
    else None
  }

  function Of(x: Option<Amount>, key: PosKey): real {
    if x.Some? && x.value.key == key then x.value.quantity else 0.0
  }

  function OpenQty(book: Book, key: PosKey): real {
    if key in book then book[key].quantity else 0.0
  }

  ghost function Booked(cfg: Config, shadowMode: bool, s: State, actions: seq<Action>, key: PosKey): real {
    if actions == [] then 0.0
    else
      var n := |actions| - 1;
      Booked(cfg, shadowMode, s, actions[..n], key)
      + Of(BookedBy(Run(cfg, shadowMode, s, actions[..n]), actions[n]), key)
  }

  ghost function Registered(cfg: Config, shadowMode: bool, s: State, actions: seq<Action>, key: PosKey): real {
    if actions == [] then 0.0
    else
      var n := |actions| - 1;
      Registered(cfg, shadowMode, s, actions[..n], key)
      + Of(RegisteredBy(Run(cfg, shadowMode, s, actions[..n]), actions[n]), key)
  }

  // ---- What a worker between reading and closing can rely on ----

  /** If the position it found is still there, it is of the locked symbol and has the quantity it read. */
  ghost predicate ReadStillTrue(s: Shared, p: Phase) {
    p.Matched? && p.key in s.book ==>
      s.book[p.key].symbol == p.symbol && s.book[p.key].side == p.side &&
      p.amount == s.book[p.key].quantity * CloseRatio(p.level)
  }

  ghost predicate AllReadsTrue(s: State) {
    forall w :: 0 <= w < |s.workers| ==> ReadStillTrue(s.shared, s.workers[w])
  }

  /** The order id of a found position is neither new nor about to be registered. */
  ghost predicate FoundIdsUsed(s: State) {
    && (forall w :: 0 <= w < |s.workers| && s.workers[w].Matched? && s.workers[w].key.Opened? ==>
                      s.workers[w].key.oid < s.shared.nextOid)
    && (forall v, w ::
          0 <= v < |s.workers| && 0 <= w < |s.workers| &&
          s.workers[v].Matched? && s.workers[v].key.Opened? && s.workers[w].Ordered? ==>
            s.workers[v].key.oid != s.workers[w].oid)
  }

  ghost predicate Inv(s: State) {
    Exclusive(s) && Sound(s) && AllReadsTrue(s) && FoundIdsUsed(s)
  }

  lemma FoundIdsStep(cfg: Config, shadowMode: bool, s: State, a: Action)
    requires Sound(s) && FoundIdsUsed(s)
    ensures FoundIdsUsed(Step(cfg, shadowMode, s, a))
  {
    hide Local, PhaseOk;
    if a.Act? && a.w < |s.workers| {
      IdsOf(cfg, shadowMode, s.shared, s.workers[a.w], a.op);
      FoundIdsAfter(s, Step(cfg, shadowMode, s, a), a.w);
    }
  }

  lemma FoundIdsAfter(s: State, t: State, w: nat)
    requires IdsFresh(s) && FoundIdsUsed(s) && w < |s.workers| == |t.workers|
    requires t.workers == s.workers[w := t.workers[w]]
    requires IdEffect(s.shared, s.workers[w], t.shared, t.workers[w])
    ensures FoundIdsUsed(t)
  {
  }

  /** Nothing of another worker's step touches the position a worker has found, except to remove it. */
  lemma ReadsStep(cfg: Config, shadowMode: bool, s: State, a: Action)
    requires Inv(s)
    ensures AllReadsTrue(Step(cfg, shadowMode, s, a))
  {
    hide Local, AllReadsTrue, ReadStillTrue, Inv;
    var t := Step(cfg, shadowMode, s, a);
    forall v | 0 <= v < |t.workers|
      ensures ReadStillTrue(t.shared, t.workers[v])
    {
      ReadAt(s, v);
      if !a.Act? || a.w >= |s.workers| {
        UnlockedChange(s, t, a, v);
      } else if v == a.w {
        OwnStep(cfg, shadowMode, s.shared, s.workers[v], a.op);
      } else {
        OthersStep(cfg, shadowMode, s, a.w, a.op, v);
      }
    }
    AllRead(t);
  }

  lemma ReadAt(s: State, v: nat)
    requires Inv(s) && v < |s.workers|
    ensures ReadStillTrue(s.shared, s.workers[v])
  {
    hide Sound, Exclusive, FoundIdsUsed, ReadStillTrue;
  }

  lemma AllRead(t: State)
    requires forall v :: 0 <= v < |t.workers| ==> ReadStillTrue(t.shared, t.workers[v])
    ensures AllReadsTrue(t)
  {
  }

  lemma UnlockedChange(s: State, t: State, a: Action, v: nat)
    requires v < |s.workers| && ReadStillTrue(s.shared, s.workers[v])
    requires t.workers == s.workers && t.shared.book.Keys <= s.shared.book.Keys
    requires forall k :: k in t.shared.book ==> t.shared.book[k] == s.shared.book[k]
    ensures ReadStillTrue(t.shared, t.workers[v])
  {
  }

  lemma OwnStep(cfg: Config, shadowMode: bool, s: Shared, p: Phase, op: Op)
    requires ReadStillTrue(s, p)
    ensures var r := Local(cfg, shadowMode, s, p, op); ReadStillTrue(r.0, r.1)
  {
    hide Decide, Conflicts, PositionOf, CloseRatio, Reduce;
  }

  /** The two books agree except perhaps at one key. */
  ghost predicate AgreeBut(b: Book, c: Book, key: PosKey) {
    forall k :: k != key ==> (k in b <==> k in c) && (k in b ==> b[k] == c[k])
  }

  /** What a worker's step can do to positions: register its own, change the one it found, or nothing. */
  ghost predicate BookEffect(s: Shared, p: Phase, t: Shared, op: Op) {
    || t.book == s.book
    || (op.Register? && p.Ordered? && AgreeBut(t.book, s.book, Opened(p.e.symbol, p.e.timeframe, p.oid)))
    || (op.Close? && p.Matched? && AgreeBut(t.book, s.book, p.key) && (p.key in t.book ==> p.key in s.book))
  }

  lemma BooksOf(cfg: Config, shadowMode: bool, s: Shared, p: Phase, op: Op)
    ensures BookEffect(s, p, Local(cfg, shadowMode, s, p, op).0, op)
  {
    hide Decide, Conflicts, PositionOf, CloseRatio, EntryOf;
  }

  lemma OthersStep(cfg: Config, shadowMode: bool, s: State, w: nat, op: Op, v: nat)
    requires Inv(s) && w < |s.workers| && v < |s.workers| && v != w
    requires ReadStillTrue(s.shared, s.workers[v])
    ensures ReadStillTrue(Local(cfg, shadowMode, s.shared, s.workers[w], op).0, s.workers[v])
  {
    var p, q := s.workers[v], s.workers[w];
    assert Held(p).Some? ==> Held(p) != Held(q);
    assert p.Matched? && p.key.Opened? && q.Ordered? ==> p.key.oid != q.oid;
    assert p.Matched? ==> Held(p) == Some(p.symbol);
    assert q.Matched? ==> Held(q) == Some(q.symbol);
    hide Inv, Local, CloseRatio, ReadStillTrue, BookEffect;
    BooksOf(cfg, shadowMode, s.shared, q, op);
    if p.Matched? && p.key in s.shared.book && q.Matched? && q.key == p.key {
      SameKeySameSymbol(s, v, w);
    }
    EffectSparesOthers(s.shared, q, Local(cfg, shadowMode, s.shared, q, op).0, op, p);
  }

  lemma EffectSparesOthers(s: Shared, q: Phase, t: Shared, op: Op, p: Phase)
    requires BookEffect(s, q, t, op) && ReadStillTrue(s, p)
    requires p.Matched? && p.key in s.book && q.Matched? ==> p.key != q.key
    requires p.Matched? && p.key.Opened? && q.Ordered? ==> p.key.oid != q.oid
    ensures ReadStillTrue(t, p)
  {
    hide CloseRatio;
  }

  /** Two workers that found one position hold one lock. */
  lemma SameKeySameSymbol(s: State, v: nat, w: nat)
    requires Inv(s) && v < |s.workers| && w < |s.workers|
    requires s.workers[v].Matched? && s.workers[w].Matched? && s.workers[v].key == s.workers[w].key
    requires s.workers[v].key in s.shared.book
    ensures s.workers[v].symbol == s.workers[w].symbol
  {
    ReadAt(s, v);
    ReadAt(s, w);
  }

  lemma InvStep(cfg: Config, shadowMode: bool, s: State, a: Action)
    requires Inv(s)
    ensures Inv(Step(cfg, shadowMode, s, a))
  {
    hide Step, Sound, Exclusive, AllReadsTrue, FoundIdsUsed;
    ReadsStep(cfg, shadowMode, s, a);
    ExclusiveStep(cfg, shadowMode, s, a);
    SoundStep(cfg, shadowMode, s, a);
    FoundIdsStep(cfg, shadowMode, s, a);
  }

  // ---- Every step balances ----

  /** No step books more of a position than is open, and what it books or registers is what it changes. */
  lemma StepBalances(cfg: Config, shadowMode: bool, s: State, a: Action, key: PosKey)
    requires Inv(s)
    ensures var t := Step(cfg, shadowMode, s, a);
            OpenQty(s.shared.book, key) + Of(RegisteredBy(s, a), key) ==
            OpenQty(t.shared.book, key) + Of(BookedBy(s, a), key)
    ensures 0.0 <= Of(BookedBy(s, a), key) <= OpenQty(s.shared.book, key)
  {
    QuantitiesPositive(s);
    if a.Act? && a.w < |s.workers| {
      var p := s.workers[a.w];
      if a.op.Register? {
        hide Inv, BookedBy;
        RegisterBalances(cfg, shadowMode, s, a.w, a.op, key);
      } else if a.op.Close? {
        CloseBalances(cfg, shadowMode, s, a.w, key);
      } else {
        hide Inv, Local;
        OthersKeepBook(cfg, shadowMode, s.shared, p, a.op);
      }
    } else {
      hide Inv, Local;
    }
  }

  lemma QuantitiesPositive(s: State)
    requires Inv(s)
    ensures forall k :: k in s.shared.book ==> s.shared.book[k].quantity > 0.0
  {
  }

  lemma OthersKeepBook(cfg: Config, shadowMode: bool, s: Shared, p: Phase, op: Op)
    requires !op.Register? && !op.Close?
    ensures Local(cfg, shadowMode, s, p, op).0.book == s.book
  {
    hide Decide, Conflicts, PositionOf, CloseRatio, EntryOf;
  }

  lemma RegisterBalances(cfg: Config, shadowMode: bool, s: State, w: nat, op: Op, key: PosKey)
    requires Inv(s) && w < |s.workers| && op.Register?
    ensures BookedBy(s, Act(w, op)).None?
    ensures OpenQty(Step(cfg, shadowMode, s, Act(w, op)).shared.book, key) ==
            OpenQty(s.shared.book, key) + Of(RegisteredBy(s, Act(w, op)), key)
  {
    var p := s.workers[w];
    if p.Ordered? {
      var k := Opened(p.e.symbol, p.e.timeframe, p.oid);
      assert k !in s.shared.book;
      hide Inv;
      assert Step(cfg, shadowMode, s, Act(w, op)).shared.book[k].quantity == p.e.quantity;
    }
  }

  lemma CloseBalances(cfg: Config, shadowMode: bool, s: State, w: nat, key: PosKey)
    requires Inv(s) && w < |s.workers|
    ensures RegisteredBy(s, Act(w, Close)).None?
    ensures OpenQty(s.shared.book, key) ==
            OpenQty(Step(cfg, shadowMode, s, Act(w, Close)).shared.book, key) + Of(BookedBy(s, Act(w, Close)), key)
    ensures 0.0 <= Of(BookedBy(s, Act(w, Close)), key) <= OpenQty(s.shared.book, key)
  {
    QuantitiesPositive(s);
    ReadAt(s, w);
    var p := s.workers[w];
    hide Inv, CloseRatio;
    if !p.Matched? || p.key !in s.shared.book {
      CloseOfNothing(cfg, shadowMode, s.shared, p);
      hide Local, Reduce;
    } else {
      var q := s.shared.book[p.key].quantity;
      AmountOf(q, p.amount, p.level);
      CloseAmounts(cfg, shadowMode, s.shared, p);
      hide Local, Reduce;
    }
  }

  lemma CloseOfNothing(cfg: Config, shadowMode: bool, s: Shared, p: Phase)
    requires p.Matched? ==> p.key !in s.book
    ensures Local(cfg, shadowMode, s, p, Close).0.book == s.book
  {
  }

  /** What a close leaves of the position it found. */
  lemma CloseAmounts(cfg: Config, shadowMode: bool, s: Shared, p: Phase)
    requires p.Matched? && p.key in s.book && 0.0 < p.amount <= s.book[p.key].quantity
    requires IsFull(p.level) <==> p.amount == s.book[p.key].quantity
    ensures var book := Local(cfg, shadowMode, s, p, Close).0.book;
            && AgreeBut(book, s.book, p.key)
            && OpenQty(book, p.key) == s.book[p.key].quantity - p.amount
  {
  }

  /** A full close takes what is there, a partial one some of it. */
  lemma AmountOf(q: real, amount: real, level: Level)
    requires q > 0.0 && amount == q * CloseRatio(level)
    ensures 0.0 < amount <= q && (IsFull(level) <==> amount == q)
  {
  }

  /**
   In every interleaving, for every position: what was booked as closed plus what is open is what was
   open at the start plus what was registered.
   */
  lemma {:induction false} EveryInterleavingBalances(cfg: Config, shadowMode: bool, s: State, actions: seq<Action>,
                                                     key: PosKey)
    requires Inv(s)
    ensures Inv(Run(cfg, shadowMode, s, actions))
    ensures Booked(cfg, shadowMode, s, actions, key) + OpenQty(Run(cfg, shadowMode, s, actions).shared.book, key)
         == OpenQty(s.shared.book, key) + Registered(cfg, shadowMode, s, actions, key)
  {
    if actions != [] {
      var n := |actions| - 1;
      EveryInterleavingBalances(cfg, shadowMode, s, actions[..n], key);
      hide Inv, Step, BookedBy, RegisteredBy, OpenQty, Of;
      InvStep(cfg, shadowMode, Run(cfg, shadowMode, s, actions[..n]), actions[n]);
      StepBalances(cfg, shadowMode, Run(cfg, shadowMode, s, actions[..n]), actions[n], key);
    }
  }

  /** Idle workers and a book of positive quantities under used ids are enough to start from. */
  lemma IdleStartHolds(s: State)
    requires forall w :: 0 <= w < |s.workers| ==> s.workers[w].Idle?
    requires forall k :: k in s.shared.book ==> s.shared.book[k].quantity > 0.0
    requires forall k :: k in s.shared.book && k.Opened? ==> k.oid < s.shared.nextOid
    ensures Inv(s)
  {
  }

  /** So a position that is gone was booked in full, and one that is not was booked in part. */
  lemma GoneMeansBookedInFull(cfg: Config, shadowMode: bool, s: State, actions: seq<Action>, key: PosKey)
    requires forall w :: 0 <= w < |s.workers| ==> s.workers[w].Idle?
    requires forall k :: k in s.shared.book ==> s.shared.book[k].quantity > 0.0
    requires forall k :: k in s.shared.book && k.Opened? ==> k.oid < s.shared.nextOid
    ensures var whole := OpenQty(s.shared.book, key) + Registered(cfg, shadowMode, s, actions, key);
            var booked := Booked(cfg, shadowMode, s, actions, key);
            && booked <= whole
            && (booked == whole <==> key !in Run(cfg, shadowMode, s, actions).shared.book)
  {
    IdleStartHolds(s);
    EveryInterleavingBalances(cfg, shadowMode, s, actions, key);
    hide Booked, Registered, Run;
  }
}
