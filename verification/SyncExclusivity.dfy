/**
 What a sync with the exchange does to the rule of one position per symbol, on which every exclusivity
 run of the workers starts.
 */
module SyncExclusivity {
  import opened PortfolioRisk
  import opened Reconciliation
  import opened Admission

  /** The exchange has one open slot per symbol, except where an imported position changes side. */
  ghost predicate OneSlotPerSymbol(book: Book, ex: Exchange) {
    forall e, f :: e in ex && f in ex && e.0 == f.0 && e != f ==> FlippedSymbol(book, ex, e.0)
  }

  /** No young paper position is on a symbol that the exchange has open on another side. */
  ghost predicate NoPaperBeside(book: Book, ex: Exchange, now: int) {
    forall k, e :: k in book && e in ex && Untouched(book[k], ex, now) ==> book[k].symbol != e.0
  }

  // ---- Where the positions of the result come from ----

  /** A key of the book that is still there has its symbol; it is on the exchange or untouched. */
  ghost predicate FromBook(book: Book, ex: Exchange, now: int, r: Book, k: PosKey)
    requires k in book && k in r
  {
    && r[k].symbol == book[k].symbol
    && (SlotOf(book[k]) in ex || Untouched(book[k], ex, now))
  }

  /** A new key is a slot of the exchange: one changed to, or one that nothing held and no change concerned. */
  ghost predicate FromExchange(book: Book, ex: Exchange, r: Book, k: PosKey)
    requires k in r
  {
    && k.External? && (k.symbol, k.side) in ex && r[k].symbol == k.symbol
    && (FlippedTo(book, ex, (k.symbol, k.side))
        || (!FlippedSymbol(book, ex, k.symbol) && !Internal(book, (k.symbol, k.side))))
  }

  lemma Origins(order: seq<PosKey>, book: Book, ex: Exchange, now: int, k: PosKey)
    requires KeysMatch(book) && WellKeyed(ex) && Lists(order, book) && k in Sync(order, book, ex, now)
    ensures var r := Sync(order, book, ex, now);
            if k in book then FromBook(book, ex, now, r, k) else FromExchange(book, ex, r, k)
  {
    SyncShape(order, book, ex, now);
    SweepShapes(order, book, ex, now);
    var swept, r := Swept(order, book, ex, now), Sync(order, book, ex, now);
    InternalAfterSweep(book, ex, now, swept);
    var missing := MissingAfter(order, book, ex, now);
    assert r == Import(swept, ex, missing, now);
    assert forall e :: e in missing ==> e in ex && !FlippedSymbol(book, ex, e.0) && !Internal(swept, e);
    hide Sync, Swept, Forward, Mark, Missing, MissingAfter, AgeHours, Internal, FlippedSymbol;
    if k in book {
      KeptOrigin(book, ex, now, swept, r, k, missing);
    } else {
      NewOrigin(book, ex, swept, r, k, missing, now);
    }
  }

  lemma KeptOrigin(book: Book, ex: Exchange, now: int, swept: Book, r: Book, k: PosKey, missing: set<Slot>)
    requires KeysMatch(book) && SweptKept(book, ex, now, swept) && missing <= ex.Keys
    requires r == Import(swept, ex, missing, now) && k in book && k in r
    requires forall j :: j in swept ==> j in r && r[j] == swept[j]
    ensures FromBook(book, ex, now, r, k)
  {
    hide AgeHours;
    assert k.External? && (k.symbol, k.side) in missing ==> SlotOf(book[k]) in ex;
  }

  lemma NewOrigin(book: Book, ex: Exchange, swept: Book, r: Book, k: PosKey, missing: set<Slot>, now: int)
    requires SweptAdded(book, ex, swept) && KeysMatch(r) && missing <= ex.Keys
    requires r == Import(swept, ex, missing, now) && k !in book && k in r
    requires forall e :: e in ex ==> (Internal(swept, e) <==> Internal(book, e) || FlippedTo(book, ex, e))
    requires forall e :: e in missing ==> !FlippedSymbol(book, ex, e.0) && !Internal(swept, e)
    requires forall e :: FlippedTo(book, ex, e) ==> e in ex
    ensures FromExchange(book, ex, r, k)
  {
    hide Internal, FlippedSymbol, FlippedTo;
    if k in swept {
      assert FlippedTo(book, ex, (k.symbol, k.side));
    } else {
      assert (k.symbol, k.side) in missing;
    }
  }

  /** The one position of a symbol that changes side is not on the exchange as it is, and is real. */
  lemma OneFlips(book: Book, ex: Exchange, k: PosKey)
    requires OnePerSymbol(book) && k in book && FlippedSymbol(book, ex, book[k].symbol)
    ensures Flips(k, book[k], ex)
  {
  }

  lemma FlipsToOne(book: Book, ex: Exchange, e: Slot, f: Slot)
    requires OnePerSymbol(book) && FlippedTo(book, ex, e) && FlippedTo(book, ex, f) && e.0 == f.0
    ensures e == f && FlippedSymbol(book, ex, e.0)
  {
  }

  // ---- The condition is enough ----

  lemma OldBesideNew(book: Book, ex: Exchange, now: int, r: Book, j: PosKey, k: PosKey)
    requires OnePerSymbol(book) && OneSlotPerSymbol(book, ex) && NoPaperBeside(book, ex, now)
    requires j in book && j in r && FromBook(book, ex, now, r, j) && k in r && FromExchange(book, ex, r, k)
    ensures r[j].symbol != r[k].symbol
  {
    hide OnePerSymbol, AgeHours;
    var f, own := (k.symbol, k.side), SlotOf(book[j]);
    assert Internal(book, own);
    if r[j].symbol == r[k].symbol {
      if FlippedSymbol(book, ex, k.symbol) {
        OneFlips(book, ex, j);
      } else {
        if FlippedTo(book, ex, f) {
          FlipsToOne(book, ex, f, f);
        }
      }
    }
  }

  lemma NewBesideNew(book: Book, ex: Exchange, r: Book, j: PosKey, k: PosKey)
    requires OnePerSymbol(book) && OneSlotPerSymbol(book, ex)
    requires j in r && FromExchange(book, ex, r, j) && k in r && FromExchange(book, ex, r, k) && j != k
    ensures r[j].symbol != r[k].symbol
  {
    hide OnePerSymbol, FlippedTo, FlippedSymbol;
    var e, f := (j.symbol, j.side), (k.symbol, k.side);
    if r[j].symbol == r[k].symbol {
      assert e != f && FlippedSymbol(book, ex, e.0);
      FlipsToOne(book, ex, e, f);
    }
  }

  lemma ConditionSuffices(order: seq<PosKey>, book: Book, ex: Exchange, now: int)
    requires KeysMatch(book) && WellKeyed(ex) && Lists(order, book) && OnePerSymbol(book)
    requires OneSlotPerSymbol(book, ex) && NoPaperBeside(book, ex, now)
    ensures OnePerSymbol(Sync(order, book, ex, now))
  {
    var r := Sync(order, book, ex, now);
    hide Sync, KeysMatch, WellKeyed, Lists, OneSlotPerSymbol, NoPaperBeside, FromExchange;
    forall j, k | j in r && k in r && r[j].symbol == r[k].symbol
      ensures j == k
    {
      Origins(order, book, ex, now, j);
      Origins(order, book, ex, now, k);
      if j !in book && k !in book {
        if j != k {
          NewBesideNew(book, ex, r, j, k);
        }
      } else if j !in book {
        OldBesideNew(book, ex, now, r, k, j);
      } else if k !in book {
        OldBesideNew(book, ex, now, r, j, k);
      }
    }
  }

  // ---- And needed ----

  lemma HeldAfterSync(order: seq<PosKey>, book: Book, ex: Exchange, now: int, e: Slot)
    requires KeysMatch(book) && WellKeyed(ex) && Lists(order, book) && e in ex && !FlippedSymbol(book, ex, e.0)
    ensures Internal(Sync(order, book, ex, now), e)
  {
    SyncShape(order, book, ex, now);
    SweepShapes(order, book, ex, now);
    hide Sync, Swept, Forward, Mark, Internal, FlippedSymbol;
    assert e in MissingAfter(order, book, ex, now) || Internal(Swept(order, book, ex, now), e);
  }

  lemma ConditionNeeded(order: seq<PosKey>, book: Book, ex: Exchange, now: int)
    requires KeysMatch(book) && WellKeyed(ex) && Lists(order, book) && OnePerSymbol(book)
    requires OnePerSymbol(Sync(order, book, ex, now))
    ensures OneSlotPerSymbol(book, ex) && NoPaperBeside(book, ex, now)
  {
    var r := Sync(order, book, ex, now);
    hide Sync, KeysMatch, WellKeyed, Lists, AgeHours, FlippedSymbol;
    forall e, f | e in ex && f in ex && e.0 == f.0 && e != f
      ensures FlippedSymbol(book, ex, e.0)
    {
      if !FlippedSymbol(book, ex, e.0) {
        HeldAfterSync(order, book, ex, now, e);
        HeldAfterSync(order, book, ex, now, f);
        TwoHeld(r, e, f);
      }
    }
    forall k, e | k in book && e in ex && Untouched(book[k], ex, now)
      ensures book[k].symbol != e.0
    {
      PaperUntouched(order, book, ex, now, k);
      var own := SlotOf(book[k]);
      assert Internal(r, own);
      if book[k].symbol == e.0 {
        if FlippedSymbol(book, ex, e.0) {
          OneFlips(book, ex, k);
        } else {
          HeldAfterSync(order, book, ex, now, e);
          TwoHeld(r, e, own);
        }
      }
    }
  }

  lemma TwoHeld(r: Book, e: Slot, f: Slot)
    requires Internal(r, e) && Internal(r, f) && e.0 == f.0 && e != f
    ensures !OnePerSymbol(r)
  {
    var j :| j in r && SlotOf(r[j]) == e;
    var k :| k in r && SlotOf(r[k]) == f;
    assert r[j].symbol == r[k].symbol && j != k;
  }

  /**
   From one position per symbol a sync leads to one position per symbol again, in whatever order it
   visits, if and only if the exchange has one slot per symbol, side changes aside, and no young paper
   position sits beside a slot of its symbol.
   */
  lemma SyncKeepsOnePerSymbolIff(order: seq<PosKey>, book: Book, ex: Exchange, now: int)
    requires KeysMatch(book) && WellKeyed(ex) && Lists(order, book) && OnePerSymbol(book)
    ensures OnePerSymbol(Sync(order, book, ex, now)) <==> OneSlotPerSymbol(book, ex) && NoPaperBeside(book, ex, now)
  {
    hide *;
    if OneSlotPerSymbol(book, ex) && NoPaperBeside(book, ex, now) {
      ConditionSuffices(order, book, ex, now);
    }
    if OnePerSymbol(Sync(order, book, ex, now)) {
      ConditionNeeded(order, book, ex, now);
    }
  }

  /** A young paper position beside an open slot of its symbol on another side: the sync makes them two. */
  lemma PaperBesideSlot(p: Position, ep: ExchangePosition, oid: nat, now: int)
    requires !p.isReal && AgeHours(p, now) < PAPER_LIFE_HOURS && p.symbol == ep.symbol && p.side != ep.side
    ensures var k := Opened(p.symbol, p.timeframe, oid);
            var book: Book := map[k := p];
            var ex: Exchange := map[(ep.symbol, ep.side) := ep];
            && KeysMatch(book) && WellKeyed(ex) && Lists([k], book)
            && OnePerSymbol(book) && !OnePerSymbol(Sync([k], book, ex, now))
  {
    var k := Opened(p.symbol, p.timeframe, oid);
    var book: Book := map[k := p];
    var ex: Exchange := map[(ep.symbol, ep.side) := ep];
    assert k in book && (ep.symbol, ep.side) in ex && Untouched(book[k], ex, now);
    assert !NoPaperBeside(book, ex, now);
    SyncKeepsOnePerSymbolIff([k], book, ex, now);
  }

  // ---- Runs after a sync ----

  lemma SyncedSides(order: seq<PosKey>, book: Book, ex: Exchange, now: int)
    requires KeysMatch(book) && WellKeyed(ex) && Lists(order, book) && BookSidesOk(book) && ExchangeSidesOk(ex)
    ensures SidesOk(Sync(order, book, ex, now))
  {
    var r := Sync(order, book, ex, now);
    SyncShape(order, book, ex, now);
    hide Sync;
    forall k | k in r
      ensures SideOk(r[k].side)
    {
      if SlotOf(r[k]) !in ex {
        SideOfUnlisted(order, book, ex, now, k);
      }
    }
  }

  lemma SideOfUnlisted(order: seq<PosKey>, book: Book, ex: Exchange, now: int, k: PosKey)
    requires KeysMatch(book) && WellKeyed(ex) && Lists(order, book) && k in Sync(order, book, ex, now)
    requires SlotOf(Sync(order, book, ex, now)[k]) !in ex
    ensures k in book && Sync(order, book, ex, now)[k] == book[k]
  {
    Origins(order, book, ex, now, k);
    SyncShape(order, book, ex, now);
    SweepShapes(order, book, ex, now);
    hide Sync, Forward, Mark, AgeHours;
  }

  /** Workers that start on a synced book under the condition keep one position per symbol in every interleaving. */
  lemma ExclusivityAfterSync(
    order: seq<PosKey>, book: Book, ex: Exchange, now: int, cfg: Config, shadowMode: bool, s: State,
    actions: seq<Action>)
    requires KeysMatch(book) && WellKeyed(ex) && Lists(order, book) && BookSidesOk(book) && ExchangeSidesOk(ex)
    requires OnePerSymbol(book) && OneSlotPerSymbol(book, ex) && NoPaperBeside(book, ex, now)
    requires s.shared.book == Sync(order, book, ex, now)
    requires forall w :: 0 <= w < |s.workers| ==> s.workers[w].Idle?
    ensures OnePerSymbol(Run(cfg, shadowMode, s, actions).shared.book)
  {
    hide Sync, Run;
    SyncKeepsOnePerSymbolIff(order, book, ex, now);
    SyncedSides(order, book, ex, now);
    SymbolExclusivity(cfg, shadowMode, s, actions);
  }
}
