/**
 Bidirectional reconciliation of the internal book with the exchange: mark real positions,
 remove or re-side ghosts, import what is missing. `order` stands for the hash map's iteration
 order, so a statement about every `order` does not depend on it.
 */
module Reconciliation {
  import opened FiniteSums
  import opened PortfolioRisk

  const NANOS_PER_HOUR := 3_600_000_000_000
  const PAPER_LIFE_HOURS := 4

  datatype ExchangePosition = ExchangePosition(symbol: string, side: string, total: real, avgPrice: real,
                                               leverage: Leverage)

  type Slot = (string, string)

  type Exchange = map<Slot, ExchangePosition>

  function SlotOf(p: Position): Slot {
    (p.symbol, p.side)
  }

  /** The other direction: anything that is not long is answered with long. */
  function OtherSide(p: Position): Slot {
    (p.symbol, if p.side == "long" then "short" else "long")
  }

  /** The response rows that count, the last one of a slot winning. */
  function ExchangeOf(rows: seq<ExchangePosition>): (ex: Exchange)
    ensures WellKeyed(ex)
  {
    if rows == [] then map[]
    else
      var ex := ExchangeOf(rows[..|rows| - 1]);
      var r := rows[|rows| - 1];
      if r.symbol != "" && r.total > 0.0 then ex[(r.symbol, r.side) := r] else ex
  }

  /** The last row of the slot that counts is the i-th. */
  ghost predicate LastRow(rows: seq<ExchangePosition>, e: Slot, i: nat) {
    && i < |rows| && rows[i].symbol == e.0 && rows[i].side == e.1 && e.0 != "" && rows[i].total > 0.0
    && forall j :: i < j < |rows| && (rows[j].symbol, rows[j].side) == e ==> rows[j].total <= 0.0
  }

  /** An open slot is told by the last row that names it with a positive size. */
  lemma {:induction false} OpenRow(rows: seq<ExchangePosition>, e: Slot) returns (i: nat)
    requires e in ExchangeOf(rows)
    ensures LastRow(rows, e, i) && ExchangeOf(rows)[e] == rows[i]
  {
    var n := |rows| - 1;
    if rows[n].symbol != "" && rows[n].total > 0.0 && (rows[n].symbol, rows[n].side) == e {
      i := n;
    } else {
      i := OpenRow(rows[..n], e);
      assert forall j :: 0 <= j < n ==> rows[..n][j] == rows[j];
    }
  }

  lemma {:induction false} RowOpens(rows: seq<ExchangePosition>, e: Slot, i: nat)
    requires i < |rows| && rows[i].symbol != "" && rows[i].total > 0.0 && (rows[i].symbol, rows[i].side) == e
    ensures e in ExchangeOf(rows)
  {
    var n := |rows| - 1;
    if i < n {
      RowOpens(rows[..n], e, i);
    }
  }

  lemma LastRowUnique(rows: seq<ExchangePosition>, e: Slot, i: nat, j: nat)
    requires LastRow(rows, e, i) && LastRow(rows, e, j)
    ensures i == j
  {
  }

  /**
   The response as a map: a slot is open if and only if some row names it with a symbol and a positive
   size, and the last such row tells what is open there.
   */
  lemma OpenSlots(rows: seq<ExchangePosition>, e: Slot)
    ensures e in ExchangeOf(rows) <==>
            exists i :: 0 <= i < |rows| && rows[i].symbol != "" && rows[i].total > 0.0
                        && (rows[i].symbol, rows[i].side) == e
    ensures forall i: nat :: i < |rows| && LastRow(rows, e, i) ==>
                               e in ExchangeOf(rows) && ExchangeOf(rows)[e] == rows[i]
  {
    hide ExchangeOf, LastRow;
    if e in ExchangeOf(rows) {
      var i := OpenRow(rows, e);
      LastRowNames(rows, e, i);
    }
    forall i | 0 <= i < |rows| && rows[i].symbol != "" && rows[i].total > 0.0 && (rows[i].symbol, rows[i].side) == e
      ensures e in ExchangeOf(rows)
    {
      RowOpens(rows, e, i);
    }
    forall i: nat | i < |rows| && LastRow(rows, e, i)
      ensures e in ExchangeOf(rows) && ExchangeOf(rows)[e] == rows[i]
    {
      LastRowNames(rows, e, i);
      RowOpens(rows, e, i);
      var j := OpenRow(rows, e);
      LastRowUnique(rows, e, i, j);
    }
  }

  lemma LastRowNames(rows: seq<ExchangePosition>, e: Slot, i: nat)
    requires LastRow(rows, e, i)
    ensures i < |rows| && rows[i].symbol != "" && rows[i].total > 0.0 && (rows[i].symbol, rows[i].side) == e
  {
  }

  predicate WellKeyed(ex: Exchange) {
    forall e :: e in ex ==> (ex[e].symbol, ex[e].side) == e
  }

  /** Whole hours, truncated toward zero as the duration cast does. */
  function AgeHours(p: Position, now: int): int {
    var age := now - p.openedAt;
    if age >= 0 then age / NANOS_PER_HOUR else -((-age) / NANOS_PER_HOUR)
  }

  // ---- The three passes ----

  function Mark(book: Book, ex: Exchange): (marked: Book)
    ensures marked.Keys == book.Keys
  {
    map k | k in book :: if SlotOf(book[k]) in ex then book[k].(isReal := true) else book[k]
  }

  /** The same for some of the keys. */
  function MarkOf(book: Book, ex: Exchange, keys: set<PosKey>): (marked: Book)
    ensures marked.Keys == book.Keys
  {
    map k | k in book :: if k in keys && SlotOf(book[k]) in ex then book[k].(isReal := true) else book[k]
  }

  lemma NoneMarked(book: Book, ex: Exchange)
    ensures MarkOf(book, ex, book.Keys - book.Keys) == book
  {
  }

  lemma AllMarked(book: Book, ex: Exchange)
    ensures MarkOf(book, ex, book.Keys) == Mark(book, ex)
  {
  }

  lemma OneMarked(book: Book, ex: Exchange, todo: set<PosKey>, k: PosKey)
    requires k in todo && todo <= book.Keys
    ensures var b := MarkOf(book, ex, book.Keys - todo);
            MarkOf(book, ex, book.Keys - (todo - {k})) ==
            if SlotOf(b[k]) in ex then b[k := b[k].(isReal := true)] else b
  {
    hide SlotOf;
    assert book.Keys - (todo - {k}) == book.Keys - todo + {k};
  }

  datatype Pass = Pass(book: Book, toRemove: seq<PosKey>, sideChanged: set<string>)

  function Resided(p: Position, ep: ExchangePosition): Position {
    p.(side := ep.side, entryPrice := ep.avgPrice, quantity := ep.total, leverage := ep.leverage)
  }

  /** What the forward pass does with one key. */
  function Visit(st: Pass, k: PosKey, ex: Exchange, now: int): Pass {
    if k !in st.book || SlotOf(st.book[k]) in ex then st
    else
      var p := st.book[k];
      if !p.isReal then
        if AgeHours(p, now) >= PAPER_LIFE_HOURS then st.(toRemove := st.toRemove + [k]) else st
      else if k.External? && OtherSide(p) in ex then
        var ep := ex[OtherSide(p)];
        var q := Resided(p, ep);
        var newKey := External(ep.symbol, ep.side);
        if newKey == k then Pass(st.book[k := q], st.toRemove, st.sideChanged + {q.symbol})
        else Pass(st.book[k := q][newKey := q], st.toRemove + [k], st.sideChanged + {q.symbol})
      else st.(toRemove := st.toRemove + [k])
  }

  function Forward(order: seq<PosKey>, book: Book, ex: Exchange, now: int): Pass {
    if order == [] then Pass(book, [], {})
    else Visit(Forward(order[..|order| - 1], book, ex, now), order[|order| - 1], ex, now)
  }

  function Erase(book: Book, keys: seq<PosKey>): Book {
    map k | k in book && k !in keys :: book[k]
  }

  ghost predicate Internal(book: Book, e: Slot) {
    exists k :: k in book && SlotOf(book[k]) == e
  }

  function Imported(ep: ExchangePosition, now: int): Position {
    Position(ep.symbol, "ext", ep.side, ep.avgPrice, ep.total, ep.leverage, 0.0, 0.0, "C", "unknown", now, true,
             "bitget", "futures")
  }

  ghost function Missing(book: Book, ex: Exchange, sideChanged: set<string>): set<Slot> {
    set e | e in ex && e.0 !in sideChanged && !Internal(book, e)
  }

  ghost function Import(book: Book, ex: Exchange, missing: set<Slot>, now: int): Book
    requires missing <= ex.Keys
  {
    book + map e | e in missing :: External(e.0, e.1) := Imported(ex[e], now)
  }

  lemma ImportShape(book: Book, ex: Exchange, missing: set<Slot>, now: int)
    requires missing <= ex.Keys
    ensures var r := Import(book, ex, missing, now);
            && (forall k :: k in r <==> k in book || (k.External? && (k.symbol, k.side) in missing))
            && (forall k :: k in r ==>
                              if k.External? && (k.symbol, k.side) in missing
                              then r[k] == Imported(ex[(k.symbol, k.side)], now)
                              else r[k] == book[k])
  {
  }

  ghost function Swept(order: seq<PosKey>, book: Book, ex: Exchange, now: int): Book {
    var pass := Forward(order, Mark(book, ex), ex, now);
    Erase(pass.book, pass.toRemove)
  }

  ghost function Sync(order: seq<PosKey>, book: Book, ex: Exchange, now: int): Book {
    var pass := Forward(order, Mark(book, ex), ex, now);
    var swept := Erase(pass.book, pass.toRemove);
    Import(swept, ex, Missing(swept, ex, pass.sideChanged), now)
  }

  /** The slots of the positions the book believes to be real. */
  ghost function RealSlots(book: Book): set<Slot> {
    set k | k in book && book[k].isReal :: SlotOf(book[k])
  }

  // ---- What a key's fate is, read off the book before the sync ----

  /** An imported position whose side was reversed on the exchange. */
  predicate Flips(k: PosKey, p: Position, ex: Exchange) {
    k.External? && p.isReal && SlotOf(p) !in ex && OtherSide(p) in ex
  }

  predicate Dies(p: Position, ex: Exchange, now: int) {
    SlotOf(p) !in ex && (p.isReal || AgeHours(p, now) >= PAPER_LIFE_HOURS)
  }

  /** Imported positions sit under the key of their own slot. */
  ghost predicate KeysMatch(book: Book) {
    forall k :: k in book && k.External? ==> SlotOf(book[k]) == (k.symbol, k.side)
  }

  function FlipKey(p: Position): PosKey {
    External(OtherSide(p).0, OtherSide(p).1)
  }

  ghost predicate FlipTarget(keys: seq<PosKey>, book: Book, ex: Exchange, e: Slot) {
    exists k :: k in keys && k in book && Flips(k, book[k], ex) && OtherSide(book[k]) == e
  }

  ghost predicate FlipSymbol(keys: seq<PosKey>, book: Book, ex: Exchange, symbol: string) {
    exists k :: k in keys && k in book && Flips(k, book[k], ex) && book[k].symbol == symbol
  }

  /** The bookkeeping of the forward pass after the keys `seen` of the marked book `m`. */
  ghost predicate Tallied(seen: seq<PosKey>, m: Book, ex: Exchange, now: int, st: Pass) {
    && (forall k :: k in st.toRemove <==> k in seen && k in m && Dies(m[k], ex, now))
    && (forall symbol :: symbol in st.sideChanged <==> FlipSymbol(seen, m, ex, symbol))
  }

  /** What became of the marked book's own positions. */
  ghost predicate Kept(seen: seq<PosKey>, m: Book, ex: Exchange, now: int, st: Pass) {
    && (forall k :: k in m ==> k in st.book)
    && (forall k :: k in m && SlotOf(m[k]) in ex ==> SlotOf(st.book[k]) == SlotOf(m[k]) && st.book[k].isReal)
    && (forall k :: k in m && SlotOf(m[k]) !in ex && (k !in seen || !Dies(m[k], ex, now)) ==> st.book[k] == m[k])
  }

  /** What the pass put under new keys: exactly the re-sided imports. */
  ghost predicate Added(seen: seq<PosKey>, m: Book, ex: Exchange, st: Pass) {
    && (forall k :: k in st.book && k !in m ==>
                      k.External? && SlotOf(st.book[k]) == (k.symbol, k.side) && st.book[k].isReal &&
                      FlipTarget(seen, m, ex, (k.symbol, k.side)))
    && (forall e :: FlipTarget(seen, m, ex, e) ==> External(e.0, e.1) in st.book)
  }

  ghost predicate Swiped(seen: seq<PosKey>, m: Book, ex: Exchange, now: int, st: Pass) {
    Tallied(seen, m, ex, now, st) && Kept(seen, m, ex, now, st) && Added(seen, m, ex, st)
  }

  ghost predicate MarkedReal(m: Book, ex: Exchange) {
    forall k :: k in m && SlotOf(m[k]) in ex ==> m[k].isReal
  }

  lemma FlipTargetSnoc(seen: seq<PosKey>, k: PosKey, m: Book, ex: Exchange)
    ensures forall e :: FlipTarget(seen + [k], m, ex, e) <==>
                        FlipTarget(seen, m, ex, e) || (k in m && Flips(k, m[k], ex) && OtherSide(m[k]) == e)
    ensures forall symbol :: FlipSymbol(seen + [k], m, ex, symbol) <==>
                             FlipSymbol(seen, m, ex, symbol) || (k in m && Flips(k, m[k], ex) && m[k].symbol == symbol)
  {
    assert forall j :: j in seen + [k] <==> j in seen || j == k;
  }

  /** What the forward pass does with a key, in terms of the marked book. */
  function Fate(st: Pass, k: PosKey, m: Book, ex: Exchange, now: int): Pass
    requires k in m
  {
    if Flips(k, m[k], ex) then
      var q := Resided(m[k], ex[OtherSide(m[k])]);
      Pass(st.book[k := q][FlipKey(m[k]) := q], st.toRemove + [k], st.sideChanged + {m[k].symbol})
    else if Dies(m[k], ex, now) then st.(toRemove := st.toRemove + [k])
    else st
  }

  lemma VisitIsFate(seen: seq<PosKey>, k: PosKey, m: Book, ex: Exchange, now: int, st: Pass)
    requires KeysMatch(m) && MarkedReal(m, ex) && WellKeyed(ex) && Kept(seen, m, ex, now, st)
    requires k in m && k !in seen
    ensures Visit(st, k, ex, now) == Fate(st, k, m, ex, now)
  {
    if SlotOf(m[k]) !in ex {
      assert st.book[k] == m[k];
      if Flips(k, m[k], ex) {
        var ep := ex[OtherSide(m[k])];
        assert (ep.symbol, ep.side) == OtherSide(m[k]);
        assert External(ep.symbol, ep.side) != k;
      }
    }
  }

  lemma FateTallied(seen: seq<PosKey>, k: PosKey, m: Book, ex: Exchange, now: int, st: Pass)
    requires k in m && k !in seen && Tallied(seen, m, ex, now, st)
    ensures Tallied(seen + [k], m, ex, now, Fate(st, k, m, ex, now))
  {
    FlipTargetSnoc(seen, k, m, ex);
    hide FlipSymbol, FlipTarget, AgeHours, Resided;
  }

  lemma FateKept(seen: seq<PosKey>, k: PosKey, m: Book, ex: Exchange, now: int, st: Pass)
    requires KeysMatch(m) && MarkedReal(m, ex) && WellKeyed(ex) && Kept(seen, m, ex, now, st)
    requires k in m && k !in seen
    ensures Kept(seen + [k], m, ex, now, Fate(st, k, m, ex, now))
  {
    if Flips(k, m[k], ex) {
      var q := Resided(m[k], ex[OtherSide(m[k])]);
      assert SlotOf(q) == OtherSide(m[k]) && q.isReal;
      hide AgeHours, Flips, Resided;
      FlipKept(seen, k, m, ex, now, st, q, FlipKey(m[k]), st.toRemove + [k], st.sideChanged + {m[k].symbol});
    } else {
      assert MarkedReal(m, ex) && SlotOf(m[k]) in ex ==> st.book[k].isReal;
      hide AgeHours, Flips, KeysMatch, MarkedReal;
    }
  }

  /** Replacing a position that dies, and putting the other side's under its slot, keeps what the rest can rely on. */
  lemma FlipKept(
    seen: seq<PosKey>, k: PosKey, m: Book, ex: Exchange, now: int, st: Pass, q: Position, newKey: PosKey,
    removed: seq<PosKey>, changed: set<string>)
    requires KeysMatch(m) && Kept(seen, m, ex, now, st) && k in m && Dies(m[k], ex, now)
    requires q.isReal && SlotOf(q) in ex && newKey == External(SlotOf(q).0, SlotOf(q).1)
    ensures Kept(seen + [k], m, ex, now, Pass(st.book[k := q][newKey := q], removed, changed))
  {
    assert newKey in m ==> SlotOf(m[newKey]) == SlotOf(q);
    hide AgeHours, KeysMatch;
  }

  lemma FateAdded(seen: seq<PosKey>, k: PosKey, m: Book, ex: Exchange, now: int, st: Pass)
    requires WellKeyed(ex) && Added(seen, m, ex, st)
    requires k in m && k !in seen
    ensures Added(seen + [k], m, ex, Fate(st, k, m, ex, now))
  {
    FlipTargetSnoc(seen, k, m, ex);
    hide FlipTarget, AgeHours;
    if Flips(k, m[k], ex) {
      var q := Resided(m[k], ex[OtherSide(m[k])]);
      assert SlotOf(q) == OtherSide(m[k]) && q.isReal;
    }
  }

  lemma {:induction false} ForwardSwipes(seen: seq<PosKey>, m: Book, ex: Exchange, now: int)
    requires KeysMatch(m) && MarkedReal(m, ex) && WellKeyed(ex)
    requires forall i :: 0 <= i < |seen| ==> seen[i] in m
    requires forall i, j :: 0 <= i < j < |seen| ==> seen[i] != seen[j]
    ensures Swiped(seen, m, ex, now, Forward(seen, m, ex, now))
  {
    hide Tallied, Kept, Added, Visit, Fate, KeysMatch, MarkedReal, WellKeyed;
    if seen == [] {
      NothingSwiped(m, ex, now);
    } else {
      var n := |seen| - 1;
      var st := Forward(seen[..n], m, ex, now);
      ForwardSwipes(seen[..n], m, ex, now);
      assert seen == seen[..n] + [seen[n]];
      VisitIsFate(seen[..n], seen[n], m, ex, now, st);
      FateTallied(seen[..n], seen[n], m, ex, now, st);
      FateKept(seen[..n], seen[n], m, ex, now, st);
      FateAdded(seen[..n], seen[n], m, ex, now, st);
    }
  }

  lemma NothingSwiped(m: Book, ex: Exchange, now: int)
    requires MarkedReal(m, ex)
    ensures Swiped([], m, ex, now, Pass(m, [], {}))
  {
  }

  // ---- After the sweep ----

  /** `order` lists the keys of the book, each once. */
  ghost predicate Lists(order: seq<PosKey>, book: Book) {
    && (forall k :: k in order <==> k in book)
    && (forall i, j :: 0 <= i < j < |order| ==> order[i] != order[j])
  }

  /** Some imported position of the book flips to the slot. */
  ghost predicate FlippedTo(book: Book, ex: Exchange, e: Slot) {
    exists k :: k in book && Flips(k, book[k], ex) && OtherSide(book[k]) == e
  }

  ghost predicate FlippedSymbol(book: Book, ex: Exchange, symbol: string) {
    exists k :: k in book && Flips(k, book[k], ex) && book[k].symbol == symbol
  }

  /** A position the sync leaves exactly as it was. */
  predicate Untouched(p: Position, ex: Exchange, now: int) {
    SlotOf(p) !in ex && !Dies(p, ex, now)
  }

  /** What the sweep leaves of the book's own positions. */
  ghost predicate SweptKept(book: Book, ex: Exchange, now: int, swept: Book) {
    && (forall k :: k in swept && k in book ==>
                      if SlotOf(book[k]) in ex then SlotOf(swept[k]) == SlotOf(book[k]) && swept[k].isReal
                      else Untouched(book[k], ex, now) && swept[k] == book[k])
    && (forall k :: k in book && !Dies(book[k], ex, now) ==> k in swept)
  }

  /** What the sweep leaves under new keys. */
  ghost predicate SweptAdded(book: Book, ex: Exchange, swept: Book) {
    && (forall k :: k in swept && k !in book ==>
                      k.External? && SlotOf(swept[k]) == (k.symbol, k.side) && swept[k].isReal &&
                      FlippedTo(book, ex, (k.symbol, k.side)))
    && (forall e :: FlippedTo(book, ex, e) ==> External(e.0, e.1) in swept)
  }

  lemma MarkFacts(order: seq<PosKey>, book: Book, ex: Exchange, now: int)
    requires KeysMatch(book) && Lists(order, book)
    ensures KeysMatch(Mark(book, ex)) && MarkedReal(Mark(book, ex), ex)
    ensures forall k :: k in book ==> SlotOf(Mark(book, ex)[k]) == SlotOf(book[k])
    ensures forall k :: k in book && SlotOf(book[k]) !in ex ==> Mark(book, ex)[k] == book[k]
    ensures forall e :: FlipTarget(order, Mark(book, ex), ex, e) <==> FlippedTo(book, ex, e)
    ensures forall symbol :: FlipSymbol(order, Mark(book, ex), ex, symbol) <==> FlippedSymbol(book, ex, symbol)
  {
    var m := Mark(book, ex);
    assert forall k :: k in book && SlotOf(book[k]) !in ex ==> m[k] == book[k];
    forall e | FlippedTo(book, ex, e)
      ensures FlipTarget(order, m, ex, e)
    {
      var k :| k in book && Flips(k, book[k], ex) && OtherSide(book[k]) == e;
      assert k in order && Flips(k, m[k], ex);
    }
    forall symbol | FlippedSymbol(book, ex, symbol)
      ensures FlipSymbol(order, m, ex, symbol)
    {
      var k :| k in book && Flips(k, book[k], ex) && book[k].symbol == symbol;
      assert k in order && Flips(k, m[k], ex);
    }
  }

  lemma FlipTargetLives(book: Book, ex: Exchange, now: int, e: Slot)
    requires KeysMatch(book) && FlippedTo(book, ex, e)
    ensures e in ex
    ensures External(e.0, e.1) in book ==> !Dies(book[External(e.0, e.1)], ex, now)
  {
  }

  lemma KeptSweeps(seen: seq<PosKey>, book: Book, m: Book, ex: Exchange, now: int, st: Pass)
    requires Tallied(seen, m, ex, now, st) && Kept(seen, m, ex, now, st)
    requires m.Keys == book.Keys && forall k :: k in book ==> k in seen
    requires forall k :: k in book ==> SlotOf(m[k]) == SlotOf(book[k])
    requires forall k :: k in book && SlotOf(book[k]) !in ex ==> m[k] == book[k]
    ensures SweptKept(book, ex, now, Erase(st.book, st.toRemove))
    ensures forall k :: k in Erase(st.book, st.toRemove) <==> k in st.book && (k in book ==> !Dies(book[k], ex, now))
  {
    hide AgeHours, FlipSymbol;
  }

  lemma AddedSweeps(seen: seq<PosKey>, book: Book, m: Book, ex: Exchange, now: int, st: Pass)
    requires Added(seen, m, ex, st) && KeysMatch(book) && m.Keys == book.Keys
    requires forall e :: FlipTarget(seen, m, ex, e) <==> FlippedTo(book, ex, e)
    requires forall k :: k in Erase(st.book, st.toRemove) <==> k in st.book && (k in book ==> !Dies(book[k], ex, now))
    ensures SweptAdded(book, ex, Erase(st.book, st.toRemove))
  {
    hide FlipTarget, FlippedTo, Dies;
    var swept := Erase(st.book, st.toRemove);
    forall e | FlippedTo(book, ex, e)
      ensures External(e.0, e.1) in swept
    {
      FlipTargetLives(book, ex, now, e);
    }
  }

  lemma SweepShapes(order: seq<PosKey>, book: Book, ex: Exchange, now: int)
    requires KeysMatch(book) && WellKeyed(ex) && Lists(order, book)
    ensures var pass := Forward(order, Mark(book, ex), ex, now);
            && SweptKept(book, ex, now, Erase(pass.book, pass.toRemove))
            && SweptAdded(book, ex, Erase(pass.book, pass.toRemove))
            && forall symbol :: symbol in pass.sideChanged <==> FlippedSymbol(book, ex, symbol)
  {
    var m := Mark(book, ex);
    MarkFacts(order, book, ex, now);
    ForwardSwipes(order, m, ex, now);
    var pass := Forward(order, m, ex, now);
    hide *;
    KeptSweeps(order, book, m, ex, now, pass);
    AddedSweeps(order, book, m, ex, now, pass);
  }

  // ---- The reconciliation theorems ----

  /** The guard of the import loop never skips a slot that nothing internal holds. */
  ghost predicate NoneSkipped(book: Book, ex: Exchange) {
    forall e :: e in ex && FlippedSymbol(book, ex, e.0) ==> Internal(book, e) || FlippedTo(book, ex, e)
  }

  lemma InternalAfterSweep(book: Book, ex: Exchange, now: int, swept: Book)
    requires KeysMatch(book) && SweptKept(book, ex, now, swept) && SweptAdded(book, ex, swept)
    ensures forall e :: e in ex ==> (Internal(swept, e) <==> Internal(book, e) || FlippedTo(book, ex, e))
  {
    hide FlippedTo;
    forall e | e in ex
      ensures Internal(swept, e) <==> Internal(book, e) || FlippedTo(book, ex, e)
    {
      if Internal(swept, e) {
        var k :| k in swept && SlotOf(swept[k]) == e;
      }
      if Internal(book, e) {
        var k :| k in book && SlotOf(book[k]) == e;
        assert k in swept && SlotOf(swept[k]) == e;
      }
      if FlippedTo(book, ex, e) {
        var k := External(e.0, e.1);
        assert k in swept && SlotOf(swept[k]) == e;
      }
    }
  }

  /** Real positions of the swept book are on the exchange, and so is every position that is on it real. */
  lemma SweptReal(book: Book, ex: Exchange, now: int, swept: Book)
    requires KeysMatch(book) && SweptKept(book, ex, now, swept) && SweptAdded(book, ex, swept)
    ensures forall k :: k in swept ==> (swept[k].isReal <==> SlotOf(swept[k]) in ex)
    ensures KeysMatch(swept)
  {
    hide AgeHours;
    forall k | k in swept && k !in book
      ensures SlotOf(swept[k]) in ex
    {
      FlipTargetLives(book, ex, now, (k.symbol, k.side));
    }
  }

  ghost function MissingAfter(order: seq<PosKey>, book: Book, ex: Exchange, now: int): set<Slot> {
    Missing(Swept(order, book, ex, now), ex, Forward(order, Mark(book, ex), ex, now).sideChanged)
  }

  lemma NothingVisited(book: Book, ex: Exchange, now: int)
    ensures Forward([], book, ex, now) == Pass(book, [], {})
  {
  }

  lemma ForwardSnoc(order: seq<PosKey>, k: PosKey, book: Book, ex: Exchange, now: int)
    ensures Forward(order + [k], book, ex, now) == Visit(Forward(order, book, ex, now), k, ex, now)
  {
    assert (order + [k])[..|order|] == order;
  }

  lemma ImportedAreFree(swept: Book, ex: Exchange, changed: set<string>)
    requires KeysMatch(swept)
    ensures forall e :: e in Missing(swept, ex, changed) ==> External(e.0, e.1) !in swept
  {
    forall e | e in Missing(swept, ex, changed)
      ensures External(e.0, e.1) !in swept
    {
      if External(e.0, e.1) in swept {
        assert SlotOf(swept[External(e.0, e.1)]) == e;
        assert Internal(swept, e);
      }
    }
  }

  /** What the import leaves: the swept book, plus the missing slots as real positions under their own keys. */
  lemma SyncShape(order: seq<PosKey>, book: Book, ex: Exchange, now: int)
    requires KeysMatch(book) && WellKeyed(ex) && Lists(order, book)
    ensures var r := Sync(order, book, ex, now);
            && KeysMatch(r)
            && (forall k :: k in Swept(order, book, ex, now) ==> k in r && r[k] == Swept(order, book, ex, now)[k])
            && (forall k :: k in r ==> (r[k].isReal <==> SlotOf(r[k]) in ex))
            && (forall e :: e in ex ==>
                              (Internal(r, e) <==>
                               Internal(Swept(order, book, ex, now), e) || e in MissingAfter(order, book, ex, now)))
  {
    var swept := Swept(order, book, ex, now);
    var missing := MissingAfter(order, book, ex, now);
    var r := Sync(order, book, ex, now);
    assert r == Import(swept, ex, missing, now);
    SweepShapes(order, book, ex, now);
    SweptReal(book, ex, now, swept);
    ImportedAreFree(swept, ex, Forward(order, Mark(book, ex), ex, now).sideChanged);
    hide Sync, Swept, Missing, MissingAfter, Import, SweptKept, SweptAdded, Forward, Mark;
    forall k | k in r
      ensures r[k].isReal <==> SlotOf(r[k]) in ex
      ensures k.External? ==> SlotOf(r[k]) == (k.symbol, k.side)
    {
      if k !in swept {
        assert r[k] == Imported(ex[(k.symbol, k.side)], now);
      }
    }
    hide Internal;
    forall e | e in ex
      ensures Internal(r, e) <==> Internal(swept, e) || e in missing
    {
      ImportHolds(swept, ex, missing, now, e);
    }
  }

  /** Besides what it held the book then holds the imported slots, if those take no key of its own. */
  lemma ImportHolds(book: Book, ex: Exchange, missing: set<Slot>, now: int, e: Slot)
    requires missing <= ex.Keys && WellKeyed(ex)
    requires forall s :: s in missing ==> External(s.0, s.1) !in book
    ensures Internal(Import(book, ex, missing, now), e) <==> Internal(book, e) || e in missing
  {
    ImportShape(book, ex, missing, now);
    var r := Import(book, ex, missing, now);
    hide Import;
    if Internal(r, e) {
      var k :| k in r && SlotOf(r[k]) == e;
      if k !in book {
        assert r[k] == Imported(ex[(k.symbol, k.side)], now);
      }
    }
    if Internal(book, e) {
      var k :| k in book && SlotOf(book[k]) == e;
      assert SlotOf(r[k]) == e;
    }
    if e in missing {
      var k := External(e.0, e.1);
      assert k in r && r[k] == Imported(ex[(k.symbol, k.side)], now);
      assert SlotOf(r[k]) == e;
    }
  }

  /**
   Reconciliation is exact. For every iteration order, the real positions after a sync occupy
   exactly the exchange's open slots if and only if no slot is skipped.
   */
  lemma SyncExact(order: seq<PosKey>, book: Book, ex: Exchange, now: int)
    requires KeysMatch(book) && WellKeyed(ex) && Lists(order, book)
    ensures RealSlots(Sync(order, book, ex, now)) == ex.Keys <==> NoneSkipped(book, ex)
  {
    hide NoneSkipped, RealSlots, Sync;
    RealSlotsAre(order, book, ex, now);
    HeldAfter(order, book, ex, now);
    AllHeldIff(Sync(order, book, ex, now), book, ex);
  }

  /** After a sync the real slots are the exchange's slots that are held. */
  lemma RealSlotsAre(order: seq<PosKey>, book: Book, ex: Exchange, now: int)
    requires KeysMatch(book) && WellKeyed(ex) && Lists(order, book)
    ensures var r := Sync(order, book, ex, now); forall e :: e in RealSlots(r) <==> e in ex && Internal(r, e)
  {
    SyncShape(order, book, ex, now);
    hide Sync, Swept, MissingAfter;
    var r := Sync(order, book, ex, now);
    forall e | e in ex && Internal(r, e)
      ensures e in RealSlots(r)
    {
      var k :| k in r && SlotOf(r[k]) == e;
    }
  }

  /** A slot is held after the sync if it was before, was changed to, or no side change kept it from being imported. */
  lemma HeldAfter(order: seq<PosKey>, book: Book, ex: Exchange, now: int)
    requires KeysMatch(book) && WellKeyed(ex) && Lists(order, book)
    ensures forall e :: e in ex ==>
                          (Internal(Sync(order, book, ex, now), e) <==>
                           Internal(book, e) || FlippedTo(book, ex, e) || !FlippedSymbol(book, ex, e.0))
  {
    var swept, changed := Swept(order, book, ex, now), Forward(order, Mark(book, ex), ex, now).sideChanged;
    SyncShape(order, book, ex, now);
    SweepShapes(order, book, ex, now);
    InternalAfterSweep(book, ex, now, swept);
    assert forall e :: e in MissingAfter(order, book, ex, now) <==> e in ex && e.0 !in changed && !Internal(swept, e);
    hide *;
  }

  lemma AllHeldIff(r: Book, book: Book, ex: Exchange)
    requires forall e :: e in RealSlots(r) <==> e in ex && Internal(r, e)
    requires forall e :: e in ex ==>
                           (Internal(r, e) <==>
                            Internal(book, e) || FlippedTo(book, ex, e) || !FlippedSymbol(book, ex, e.0))
    ensures RealSlots(r) == ex.Keys <==> NoneSkipped(book, ex)
  {
    hide RealSlots, Internal, FlippedTo, FlippedSymbol;
    if RealSlots(r) == ex.Keys {
      forall e | e in ex
        ensures Internal(r, e)
      {
        assert e in RealSlots(r);
      }
    }
  }

  ghost predicate ExchangeSidesOk(ex: Exchange) {
    forall e :: e in ex ==> e.1 == "long" || e.1 == "short"
  }

  ghost predicate BookSidesOk(book: Book) {
    forall k :: k in book ==> book[k].side == "long" || book[k].side == "short"
  }

  /** With the two sides the exchange documents, nothing is ever skipped. */
  lemma TwoSidesSkipNothing(book: Book, ex: Exchange)
    requires BookSidesOk(book) && ExchangeSidesOk(ex)
    ensures NoneSkipped(book, ex)
  {
    forall e | e in ex && FlippedSymbol(book, ex, e.0)
      ensures FlippedTo(book, ex, e)
    {
      var k :| k in book && Flips(k, book[k], ex) && book[k].symbol == e.0;
      assert OtherSide(book[k]) == e;
    }
  }

  /** The sync reconciles: real positions and the exchange's open positions coincide. */
  lemma SyncReconciles(order: seq<PosKey>, book: Book, ex: Exchange, now: int)
    requires KeysMatch(book) && WellKeyed(ex) && Lists(order, book)
    requires BookSidesOk(book) && ExchangeSidesOk(ex)
    ensures RealSlots(Sync(order, book, ex, now)) == ex.Keys
  {
    TwoSidesSkipNothing(book, ex);
    SyncExact(order, book, ex, now);
  }

  /** Every row that counts is of a long or a short. */
  ghost predicate RowSidesOk(rows: seq<ExchangePosition>) {
    forall i :: 0 <= i < |rows| && rows[i].symbol != "" && rows[i].total > 0.0 ==>
                  rows[i].side == "long" || rows[i].side == "short"
  }

  /** The slots of the rows with a symbol and a positive size. */
  ghost function RowSlots(rows: seq<ExchangePosition>): set<Slot> {
    set i | 0 <= i < |rows| && rows[i].symbol != "" && rows[i].total > 0.0 :: (rows[i].symbol, rows[i].side)
  }

  /** In terms of the response: the real positions after the sync are at just the slots its rows say are open. */
  lemma RowsReconciled(order: seq<PosKey>, book: Book, rows: seq<ExchangePosition>, now: int)
    requires KeysMatch(book) && Lists(order, book) && BookSidesOk(book) && RowSidesOk(rows)
    ensures RealSlots(Sync(order, book, ExchangeOf(rows), now)) == RowSlots(rows)
  {
    hide ExchangeOf, RealSlots, Sync;
    forall e
      ensures e in ExchangeOf(rows) <==> e in RowSlots(rows)
    {
      OpenSlots(rows, e);
    }
    SyncReconciles(order, book, ExchangeOf(rows), now);
  }

  /** Paper positions that are young and not on the exchange come through a sync unchanged; no others do. */
  lemma PaperUntouched(order: seq<PosKey>, book: Book, ex: Exchange, now: int, k: PosKey)
    requires KeysMatch(book) && WellKeyed(ex) && Lists(order, book) && k in book && SlotOf(book[k]) !in ex
    ensures Untouched(book[k], ex, now) ==> k in Sync(order, book, ex, now) && Sync(order, book, ex, now)[k] == book[k]
    ensures k in Sync(order, book, ex, now) && Sync(order, book, ex, now)[k] == book[k] ==>
              !book[k].isReal && AgeHours(book[k], now) < PAPER_LIFE_HOURS
  {
    SyncShape(order, book, ex, now);
    SweepShapes(order, book, ex, now);
    var swept := Swept(order, book, ex, now);
    hide Sync, AgeHours;
    if k in swept {
      assert swept[k] == book[k];
    } else {
      assert Dies(book[k], ex, now);
    }
  }

  // ---- What the exchange's figures become ----

  /** The position carries the exchange's figures of its slot. */
  predicate AsReported(p: Position, ex: Exchange) {
    && SlotOf(p) in ex
    && var ep := ex[SlotOf(p)]; p.entryPrice == ep.avgPrice && p.quantity == ep.total && p.leverage == ep.leverage
  }

  lemma {:induction false} ForwardReports(seen: seq<PosKey>, m: Book, ex: Exchange, now: int)
    requires KeysMatch(m) && MarkedReal(m, ex) && WellKeyed(ex)
    requires forall i :: 0 <= i < |seen| ==> seen[i] in m
    requires forall i, j :: 0 <= i < j < |seen| ==> seen[i] != seen[j]
    ensures var b := Forward(seen, m, ex, now).book; forall k :: k in b && k !in m ==> AsReported(b[k], ex)
  {
    hide Visit, Fate, Tallied, Kept, Added, KeysMatch, MarkedReal, WellKeyed, AsReported;
    if seen != [] {
      var n := |seen| - 1;
      var st := Forward(seen[..n], m, ex, now);
      ForwardReports(seen[..n], m, ex, now);
      ForwardSwipes(seen[..n], m, ex, now);
      assert seen == seen[..n] + [seen[n]];
      VisitIsFate(seen[..n], seen[n], m, ex, now, st);
      FateReports(seen[n], m, ex, now, st);
    }
  }

  lemma FateReports(k: PosKey, m: Book, ex: Exchange, now: int, st: Pass)
    requires k in m && WellKeyed(ex)
    requires forall j :: j in st.book && j !in m ==> AsReported(st.book[j], ex)
    ensures var b := Fate(st, k, m, ex, now).book; forall j :: j in b && j !in m ==> AsReported(b[j], ex)
  {
    hide AgeHours;
    if Flips(k, m[k], ex) {
      var q := Resided(m[k], ex[OtherSide(m[k])]);
      assert SlotOf(q) == OtherSide(m[k]);
      assert AsReported(q, ex);
    }
  }

  /** Whatever a sync brings into the book, imported or re-sided, carries the exchange's price, size and leverage. */
  lemma NewcomersAsReported(order: seq<PosKey>, book: Book, ex: Exchange, now: int, k: PosKey)
    requires KeysMatch(book) && WellKeyed(ex) && Lists(order, book)
    requires k in Sync(order, book, ex, now) && k !in book
    ensures AsReported(Sync(order, book, ex, now)[k], ex)
  {
    var m := Mark(book, ex);
    MarkFacts(order, book, ex, now);
    ForwardReports(order, m, ex, now);
    var pass := Forward(order, m, ex, now);
    var swept := Erase(pass.book, pass.toRemove);
    if k !in swept {
      assert Sync(order, book, ex, now)[k] == Imported(ex[(k.symbol, k.side)], now);
    } else {
      SyncShape(order, book, ex, now);
      assert swept == Swept(order, book, ex, now);
    }
  }

  // ---- What the sync does to each position, in the position's own terms ----

  /** The nanoseconds of four hours. */
  const FOUR_HOURS := 14_400_000_000_000

  /** Truncating to whole hours first makes no difference to the four. */
  lemma UnderFourHours(p: Position, now: int)
    ensures AgeHours(p, now) < PAPER_LIFE_HOURS <==> now - p.openedAt < FOUR_HOURS
  {
  }

  /**
   A position's key stays if and only if its symbol and side are open on the exchange, or it is a paper
   position opened less than four hours ago.
   */
  lemma SurvivesIff(order: seq<PosKey>, book: Book, ex: Exchange, now: int, k: PosKey)
    requires KeysMatch(book) && WellKeyed(ex) && Lists(order, book) && k in book
    ensures k in Sync(order, book, ex, now) <==>
            (book[k].symbol, book[k].side) in ex || (!book[k].isReal && now - book[k].openedAt < FOUR_HOURS)
  {
    UnderFourHours(book[k], now);
    SweepShapes(order, book, ex, now);
    var swept := Swept(order, book, ex, now);
    assert Sync(order, book, ex, now) == Import(swept, ex, MissingAfter(order, book, ex, now), now);
    hide Sync, Swept, Forward, Mark, AgeHours, SweptAdded, MissingAfter;
    assert k in swept ==> SlotOf(book[k]) in ex || Untouched(book[k], ex, now);
  }

  /**
   The position is what became of one whose side the exchange reports reversed: it took over side, price,
   size and leverage, and kept the rest.
   */
  ghost predicate FromReversed(p: Position, book: Book, ex: Exchange) {
    && (p.symbol, p.side) in ex
    && exists j :: j in book && Reversed(j, book[j], p, ex)
  }

  /** `was` was imported and real, gone from the exchange on its own side and there on the other. */
  predicate Reversed(j: PosKey, was: Position, p: Position, ex: Exchange)
    requires (p.symbol, p.side) in ex
  {
    var ep := ex[(p.symbol, p.side)];
    && j.External? && was.isReal && (was.symbol, was.side) !in ex
    && p.symbol == was.symbol && p.side == (if was.side == "long" then "short" else "long")
    && p == was.(side := p.side, entryPrice := ep.avgPrice, quantity := ep.total, leverage := ep.leverage)
  }

  lemma {:induction false} ForwardContents(seen: seq<PosKey>, m: Book, ex: Exchange, now: int)
    requires KeysMatch(m) && MarkedReal(m, ex) && WellKeyed(ex)
    requires forall i :: 0 <= i < |seen| ==> seen[i] in m
    requires forall i, j :: 0 <= i < j < |seen| ==> seen[i] != seen[j]
    ensures var b := Forward(seen, m, ex, now).book;
            forall k :: k in b ==> (k in m && b[k] == m[k]) || FromReversed(b[k], m, ex)
  {
    hide Visit, Fate, Tallied, Kept, Added, KeysMatch, MarkedReal, WellKeyed, FromReversed;
    if seen != [] {
      var n := |seen| - 1;
      var st := Forward(seen[..n], m, ex, now);
      ForwardContents(seen[..n], m, ex, now);
      ForwardSwipes(seen[..n], m, ex, now);
      assert seen == seen[..n] + [seen[n]];
      VisitIsFate(seen[..n], seen[n], m, ex, now, st);
      FateContents(seen[n], m, ex, now, st);
    }
  }

  lemma FateContents(k: PosKey, m: Book, ex: Exchange, now: int, st: Pass)
    requires k in m && WellKeyed(ex)
    requires forall j :: j in st.book ==> (j in m && st.book[j] == m[j]) || FromReversed(st.book[j], m, ex)
    ensures var b := Fate(st, k, m, ex, now).book;
            forall j :: j in b ==> (j in m && b[j] == m[j]) || FromReversed(b[j], m, ex)
  {
    if Flips(k, m[k], ex) {
      var ep := ex[OtherSide(m[k])];
      var q := Resided(m[k], ep);
      assert (ep.symbol, ep.side) == OtherSide(m[k]);
      assert Reversed(k, m[k], q, ex);
      assert FromReversed(q, m, ex);
      hide FromReversed;
    }
  }

  /**
   What is in the book after a sync: its own positions, unchanged but for being real when the exchange has
   them; positions whose side was reversed; and under new keys also imports, with the exchange's figures.
   */
  lemma SyncContents(order: seq<PosKey>, book: Book, ex: Exchange, now: int, k: PosKey)
    requires KeysMatch(book) && WellKeyed(ex) && Lists(order, book) && k in Sync(order, book, ex, now)
    ensures var p := Sync(order, book, ex, now)[k];
            || (k in book && p == book[k].(isReal := book[k].isReal || (book[k].symbol, book[k].side) in ex))
            || FromReversed(p, book, ex)
            || (k !in book && k == External(p.symbol, p.side) && (p.symbol, p.side) in ex &&
                var ep := ex[(p.symbol, p.side)];
                p == Position(ep.symbol, "ext", ep.side, ep.avgPrice, ep.total, ep.leverage, 0.0, 0.0, "C", "unknown",
                              now, true, "bitget", "futures"))
  {
    var m := Mark(book, ex);
    MarkFacts(order, book, ex, now);
    ForwardContents(order, m, ex, now);
    var pass := Forward(order, m, ex, now);
    var swept, missing := Swept(order, book, ex, now), MissingAfter(order, book, ex, now);
    ImportShape(swept, ex, missing, now);
    assert swept == Erase(pass.book, pass.toRemove) && Sync(order, book, ex, now) == Import(swept, ex, missing, now);
    MarkContents(book, ex);
    OwnKeysStay(order, book, ex, now, k);
    hide Sync, Swept, MissingAfter, Forward, Import, FromReversed, Mark;
    if k in swept && FromReversed(pass.book[k], m, ex) {
      ReversedInBook(book, ex, pass.book[k]);
    }
  }

  lemma MarkContents(book: Book, ex: Exchange)
    ensures forall k :: k in book ==>
                          Mark(book, ex)[k] ==
                          book[k].(isReal := book[k].isReal || (book[k].symbol, book[k].side) in ex)
  {
  }

  lemma ReversedInBook(book: Book, ex: Exchange, p: Position)
    requires FromReversed(p, Mark(book, ex), ex)
    ensures FromReversed(p, book, ex)
  {
    var m := Mark(book, ex);
    var j :| j in m && Reversed(j, m[j], p, ex);
    assert Reversed(j, book[j], p, ex);
  }

  /** The import does not touch the key of an own position. */
  lemma OwnKeysStay(order: seq<PosKey>, book: Book, ex: Exchange, now: int, k: PosKey)
    requires KeysMatch(book) && WellKeyed(ex) && Lists(order, book) && k in Sync(order, book, ex, now)
    ensures k in book || k in Swept(order, book, ex, now) ==>
              k in Swept(order, book, ex, now) && Sync(order, book, ex, now)[k] == Swept(order, book, ex, now)[k]
  {
    SyncShape(order, book, ex, now);
    if k in book {
      SurvivesIff(order, book, ex, now, k);
      UnderFourHours(book[k], now);
      SweepShapes(order, book, ex, now);
      hide Sync, AgeHours;
    }
  }

  // ---- What the code's bookkeeping relies on ----

  /**
   Positions re-keyed during the pass need no visit of their own: whether an iteration over the
   growing map comes across them or not, the pass ends the same.
   */
  lemma NewKeysNeedNoVisit(order: seq<PosKey>, book: Book, ex: Exchange, now: int, k: PosKey)
    requires KeysMatch(book) && WellKeyed(ex) && Lists(order, book) && k !in book
    ensures Visit(Forward(order, Mark(book, ex), ex, now), k, ex, now) == Forward(order, Mark(book, ex), ex, now)
  {
    MarkFacts(order, book, ex, now);
    ForwardReports(order, Mark(book, ex), ex, now);
  }

  lemma {:induction false} NothingRemovedNothingChanged(seen: seq<PosKey>, m: Book, ex: Exchange, now: int)
    requires KeysMatch(m) && MarkedReal(m, ex) && WellKeyed(ex)
    requires forall i :: 0 <= i < |seen| ==> seen[i] in m
    requires forall i, j :: 0 <= i < j < |seen| ==> seen[i] != seen[j]
    requires Forward(seen, m, ex, now).toRemove == []
    ensures Forward(seen, m, ex, now) == Pass(m, [], {})
  {
    hide Visit, Tallied, Kept, Added, KeysMatch, MarkedReal, WellKeyed, AgeHours;
    if seen != [] {
      var n := |seen| - 1;
      var st := Forward(seen[..n], m, ex, now);
      ForwardSwipes(seen[..n], m, ex, now);
      assert seen == seen[..n] + [seen[n]];
      VisitIsFate(seen[..n], seen[n], m, ex, now, st);
      assert |st.toRemove| <= |Fate(st, seen[n], m, ex, now).toRemove|;
      NothingRemovedNothingChanged(seen[..n], m, ex, now);
    }
  }

  /** A sync that removes and imports nothing, and so is not saved, changed at most which positions count as real. */
  lemma UnsavedSyncOnlyMarks(order: seq<PosKey>, book: Book, ex: Exchange, now: int)
    requires KeysMatch(book) && WellKeyed(ex) && Lists(order, book)
    requires Forward(order, Mark(book, ex), ex, now).toRemove == [] && MissingAfter(order, book, ex, now) == {}
    ensures Sync(order, book, ex, now) == Mark(book, ex)
  {
    MarkFacts(order, book, ex, now);
    NothingRemovedNothingChanged(order, Mark(book, ex), ex, now);
    hide Forward, Mark, KeysMatch;
    assert Erase(Mark(book, ex), []) == Mark(book, ex);
    assert Import(Mark(book, ex), ex, {}, now) == Mark(book, ex);
  }

  ghost predicate NobodyDies(book: Book, ex: Exchange, now: int) {
    forall k :: k in book ==> !Dies(book[k], ex, now)
  }

  ghost predicate AllHeld(book: Book, ex: Exchange) {
    forall e :: e in ex ==> Internal(book, e)
  }

  /** Nothing is due for removal and nothing is missing, so a sync of the book is not saved. */
  ghost predicate NothingToDo(book: Book, ex: Exchange, now: int) {
    NobodyDies(book, ex, now) && AllHeld(book, ex)
  }

  /** Some position that counts as paper is open on the exchange. */
  ghost predicate Unmarked(book: Book, ex: Exchange) {
    exists k :: k in book && !book[k].isReal && SlotOf(book[k]) in ex
  }

  lemma NothingRemovedIff(order: seq<PosKey>, book: Book, ex: Exchange, now: int)
    requires KeysMatch(book) && WellKeyed(ex) && Lists(order, book)
    ensures Forward(order, Mark(book, ex), ex, now).toRemove == [] <==> NobodyDies(book, ex, now)
  {
    var m := Mark(book, ex);
    MarkFacts(order, book, ex, now);
    ForwardSwipes(order, m, ex, now);
    hide Forward, AgeHours, Kept, Added, FlipSymbol;
    var st := Forward(order, m, ex, now);
    assert forall k :: k in book ==> (Dies(m[k], ex, now) <==> Dies(book[k], ex, now));
    hide Mark, Dies;
    assert forall k :: k in st.toRemove <==> k in book && Dies(book[k], ex, now);
    if st.toRemove != [] {
      assert st.toRemove[0] in st.toRemove;
    }
  }

  lemma NothingMissingIff(order: seq<PosKey>, book: Book, ex: Exchange, now: int)
    requires KeysMatch(book) && WellKeyed(ex) && Lists(order, book) && NobodyDies(book, ex, now)
    ensures MissingAfter(order, book, ex, now) == {} <==> AllHeld(book, ex)
  {
    SweepShapes(order, book, ex, now);
    InternalAfterSweep(book, ex, now, Swept(order, book, ex, now));
    NobodyFlips(book, ex, now);
    var swept, missing := Swept(order, book, ex, now), MissingAfter(order, book, ex, now);
    hide Forward, Mark, Swept, SweptKept, SweptAdded, NobodyDies, Internal, FlippedTo, FlippedSymbol;
    assert forall e :: e in missing <==> e in ex && !Internal(swept, e);
    hide MissingAfter, Missing;
    if e :| e in missing {
      assert e in ex && !Internal(book, e);
    }
  }

  /** A sync removes and imports nothing exactly when, in the book before it, nothing dies and every slot is held. */
  lemma UnsavedIff(order: seq<PosKey>, book: Book, ex: Exchange, now: int)
    requires KeysMatch(book) && WellKeyed(ex) && Lists(order, book)
    ensures Forward(order, Mark(book, ex), ex, now).toRemove == [] && MissingAfter(order, book, ex, now) == {} <==>
            NothingToDo(book, ex, now)
  {
    hide Forward, Mark, MissingAfter, NobodyDies, AllHeld;
    NothingRemovedIff(order, book, ex, now);
    if NobodyDies(book, ex, now) {
      NothingMissingIff(order, book, ex, now);
    }
  }

  lemma NobodyFlips(book: Book, ex: Exchange, now: int)
    requires NobodyDies(book, ex, now)
    ensures forall symbol :: !FlippedSymbol(book, ex, symbol)
    ensures forall e :: !FlippedTo(book, ex, e)
  {
  }

  /**
   A sync changes the book without saving it if and only if, before it, no position is due for removal,
   every slot of the exchange is held, and some position on the exchange still counts as paper.
   */
  lemma UnsavedChangeIff(order: seq<PosKey>, book: Book, ex: Exchange, now: int)
    requires KeysMatch(book) && WellKeyed(ex) && Lists(order, book)
    ensures Forward(order, Mark(book, ex), ex, now).toRemove == [] && MissingAfter(order, book, ex, now) == {}
            && Sync(order, book, ex, now) != book <==>
            NothingToDo(book, ex, now) && Unmarked(book, ex)
  {
    UnsavedIff(order, book, ex, now);
    MarkChangesIff(book, ex);
    hide Forward, Mark, Sync, Unmarked, NothingToDo;
    if NothingToDo(book, ex, now) {
      UnsavedSyncOnlyMarks(order, book, ex, now);
    }
  }

  lemma MarkChangesIff(book: Book, ex: Exchange)
    ensures Mark(book, ex) != book <==> Unmarked(book, ex)
  {
    if k :| k in book && !book[k].isReal && SlotOf(book[k]) in ex {
      assert Mark(book, ex)[k] != book[k];
    } else {
      assert forall k :: k in book ==> Mark(book, ex)[k] == book[k];
      assert Mark(book, ex) == book;
    }
  }

  /** A paper position that turns out to be open on the exchange: the sync marks it real, and nothing is saved. */
  lemma PaperTurnsRealUnsaved(p: Position, ep: ExchangePosition, oid: nat, now: int)
    requires SlotOf(p) == (ep.symbol, ep.side) && !p.isReal
    ensures var k := Opened(p.symbol, p.timeframe, oid);
            var book: Book := map[k := p];
            var ex: Exchange := map[SlotOf(p) := ep];
            && KeysMatch(book) && WellKeyed(ex) && Lists([k], book)
            && Forward([k], Mark(book, ex), ex, now).toRemove == [] && MissingAfter([k], book, ex, now) == {}
            && Sync([k], book, ex, now) == map[k := p.(isReal := true)] != book
  {
    var k := Opened(p.symbol, p.timeframe, oid);
    var book: Book := map[k := p];
    var ex: Exchange := map[SlotOf(p) := ep];
    assert k in book && SlotOf(book[k]) == SlotOf(p);
    assert Lists([k], book) && NothingToDo(book, ex, now) && Unmarked(book, ex);
    UnsavedChangeIff([k], book, ex, now);
    UnsavedSyncOnlyMarks([k], book, ex, now);
    assert Mark(book, ex) == map[k := p.(isReal := true)];
  }

  // ---- Idempotence ----

  /** A book the sync has nothing to say about. */
  ghost predicate Settled(book: Book, ex: Exchange, now: int) {
    && KeysMatch(book)
    && (forall k :: k in book ==> (book[k].isReal <==> SlotOf(book[k]) in ex))
    && (forall k :: k in book ==> !Dies(book[k], ex, now))
    && (forall e :: e in ex ==> Internal(book, e))
  }

  lemma {:induction false} SettledForward(order: seq<PosKey>, book: Book, ex: Exchange, now: int)
    requires Settled(book, ex, now)
    ensures Forward(order, book, ex, now) == Pass(book, [], {})
  {
    if order != [] {
      SettledForward(order[..|order| - 1], book, ex, now);
    }
  }

  lemma SettledIsFixed(order: seq<PosKey>, book: Book, ex: Exchange, now: int)
    requires Settled(book, ex, now)
    ensures Sync(order, book, ex, now) == book
    ensures Forward(order, Mark(book, ex), ex, now).toRemove == [] && MissingAfter(order, book, ex, now) == {}
  {
    SettledMarks(book, ex, now);
    SettledForward(order, book, ex, now);
    NothingToImport(book, ex, now);
    hide AgeHours, Forward, Mark, Missing, Import, Settled, Internal;
    assert Erase(book, []) == book;
  }

  lemma SettledMarks(book: Book, ex: Exchange, now: int)
    requires Settled(book, ex, now)
    ensures Mark(book, ex) == book
  {
    hide Internal, AgeHours, KeysMatch;
  }

  lemma NothingToImport(book: Book, ex: Exchange, now: int)
    requires Settled(book, ex, now)
    ensures Missing(book, ex, {}) == {} && Import(book, ex, {}, now) == book
  {
    hide AgeHours, Internal, Imported;
  }

  lemma SyncSettles(order: seq<PosKey>, book: Book, ex: Exchange, now: int)
    requires KeysMatch(book) && WellKeyed(ex) && Lists(order, book) && NoneSkipped(book, ex)
    ensures Settled(Sync(order, book, ex, now), ex, now)
  {
    var r := Sync(order, book, ex, now);
    SyncShape(order, book, ex, now);
    SweepShapes(order, book, ex, now);
    SyncExact(order, book, ex, now);
    hide Sync, AgeHours, NoneSkipped, Missing, Swept, Mark, Forward;
    forall e | e in ex
      ensures Internal(r, e)
    {
      assert e in RealSlots(r);
    }
    forall k | k in r
      ensures !Dies(r[k], ex, now)
    {
      PaperSurvives(order, book, ex, now, k);
    }
    hide *;
  }

  lemma PaperSurvives(order: seq<PosKey>, book: Book, ex: Exchange, now: int, k: PosKey)
    requires KeysMatch(book) && WellKeyed(ex) && Lists(order, book) && k in Sync(order, book, ex, now)
    ensures !Dies(Sync(order, book, ex, now)[k], ex, now)
  {
    SyncShape(order, book, ex, now);
    SweepShapes(order, book, ex, now);
    var swept := Swept(order, book, ex, now);
    var r := Sync(order, book, ex, now);
    var missing := MissingAfter(order, book, ex, now);
    assert r == Import(swept, ex, missing, now);
    hide Sync, AgeHours, Missing, MissingAfter, Swept, Mark, Forward, Import;
    if k in swept && k in book && SlotOf(book[k]) !in ex {
      assert r[k] == book[k];
    } else if k in swept {
      assert r[k].isReal;
    }
  }

  /**
   Idempotence, exactly. A second sync with the same snapshot and clock, whatever the iteration
   order, changes nothing if and only if the first one skipped no slot; then it also removes
   and imports nothing.
   */
  lemma SyncIdempotent(order: seq<PosKey>, again: seq<PosKey>, book: Book, ex: Exchange, now: int)
    requires KeysMatch(book) && WellKeyed(ex) && Lists(order, book) && Lists(again, Sync(order, book, ex, now))
    ensures var r := Sync(order, book, ex, now);
            && (Sync(again, r, ex, now) == r <==> NoneSkipped(book, ex))
            && (NoneSkipped(book, ex) ==>
                  Forward(again, Mark(r, ex), ex, now).toRemove == [] && MissingAfter(again, r, ex, now) == {})
  {
    var r := Sync(order, book, ex, now);
    if NoneSkipped(book, ex) {
      SyncSettles(order, book, ex, now);
      SettledIsFixed(again, r, ex, now);
    } else {
      SyncShape(order, book, ex, now);
      SyncExact(order, book, ex, now);
      assert NoneSkipped(r, ex);
      SyncExact(again, r, ex, now);
    }
  }

  /** A slot with neither side, beside a reversed import, is skipped: the book misses an open position. */
  lemma BlankSideIsSkipped(p: Position, short: ExchangePosition, blank: ExchangePosition, now: int)
    requires SlotOf(p) == ("BTCUSDT", "long") && p.isReal
    requires (short.symbol, short.side) == ("BTCUSDT", "short") && (blank.symbol, blank.side) == ("BTCUSDT", "")
    ensures var book := map[External("BTCUSDT", "long") := p];
            var ex := map[("BTCUSDT", "short") := short, ("BTCUSDT", "") := blank];
            && KeysMatch(book) && WellKeyed(ex) && Lists([External("BTCUSDT", "long")], book)
            && RealSlots(Sync([External("BTCUSDT", "long")], book, ex, now)) != ex.Keys
  {
    var k := External("BTCUSDT", "long");
    var book := map[k := p];
    var ex := map[("BTCUSDT", "short") := short, ("BTCUSDT", "") := blank];
    var e := ("BTCUSDT", "");
    assert SlotOf(p) !in ex && OtherSide(p) == ("BTCUSDT", "short");
    assert Flips(k, book[k], ex) && FlippedSymbol(book, ex, "BTCUSDT");
    assert e in ex && e.0 == "BTCUSDT";
    assert !Internal(book, e) && !FlippedTo(book, ex, e);
    assert !NoneSkipped(book, ex);
    SyncExact([k], book, ex, now);
  }

  // ---- The code's loops ----

  class PositionManager {
    var positions: Book

    /**
     Without a response nothing happens. The fetched rows are folded into a map, then the passes
     run in place; the state is saved when something was removed or imported.
     */
    method SyncPositions(response: Option<seq<ExchangePosition>>, now: int)
      returns (removed: nat, imported: nat, saved: bool, ghost order: seq<PosKey>)
      modifies this
      ensures response.None? ==> positions == old(positions) && !saved
      ensures response.Some? ==>
                var ex := ExchangeOf(response.value);
                && Lists(order, old(positions))
                && positions == Sync(order, old(positions), ex, now)
                && removed == |Forward(order, Mark(old(positions), ex), ex, now).toRemove|
                && imported == |MissingAfter(order, old(positions), ex, now)|
                && (saved <==> removed > 0 || imported > 0)
                && (KeysMatch(old(positions)) && BookSidesOk(old(positions)) && RowSidesOk(response.value) ==>
                      RealSlots(positions) == RowSlots(response.value))
                && (KeysMatch(old(positions)) ==>
                      (!saved && positions != old(positions) <==>
                       NothingToDo(old(positions), ex, now) && Unmarked(old(positions), ex)))
    {
      if response.None? {
        return 0, 0, false, [];
      }
      removed, imported, order := RunPasses(response.value, now);
      saved := removed > 0 || imported > 0;
      if KeysMatch(old(positions)) {
        UnsavedChangeIff(order, old(positions), ExchangeOf(response.value), now);
        CountsAreZero(order, old(positions), ExchangeOf(response.value), now);
      }
      if KeysMatch(old(positions)) && BookSidesOk(old(positions)) && RowSidesOk(response.value) {
        RowsReconciled(order, old(positions), response.value, now);
      }
      hide Sync, Forward, Mark, MissingAfter, NothingToDo, Unmarked, ExchangeOf, KeysMatch;
    }

    method RunPasses(rows: seq<ExchangePosition>, now: int)
      returns (removed: nat, imported: nat, ghost order: seq<PosKey>)
      modifies this
      ensures Lists(order, old(positions))
      ensures positions == Sync(order, old(positions), ExchangeOf(rows), now)
      ensures removed == |Forward(order, Mark(old(positions), ExchangeOf(rows)), ExchangeOf(rows), now).toRemove|
      ensures imported == |MissingAfter(order, old(positions), ExchangeOf(rows), now)|
    {
      var ex := CollectRows(rows);
      MarkReal(ex);
      assert positions.Keys == old(positions).Keys;
      var toRemove, sideChanged;
      toRemove, sideChanged, order := ForwardPass(ex, now);
      removed := |toRemove|;
      EraseAll(toRemove);
      imported := ReverseImport(ex, sideChanged, now);
    }

    static method CollectRows(rows: seq<ExchangePosition>) returns (ex: Exchange)
      ensures ex == ExchangeOf(rows)
    {
      ex := map[];
      for i := 0 to |rows|
        invariant ex == ExchangeOf(rows[..i])
      {
        assert rows[..i + 1][..i] == rows[..i];
        if rows[i].symbol != "" && rows[i].total > 0.0 {
          ex := ex[(rows[i].symbol, rows[i].side) := rows[i]];
        }
      }
      assert rows[..|rows|] == rows;
    }

    method EraseAll(toRemove: seq<PosKey>)
      modifies this
      ensures positions == Erase(old(positions), toRemove)
    {
      for i := 0 to |toRemove|
        invariant positions == Erase(old(positions), toRemove[..i])
      {
        positions := positions - {toRemove[i]};
        assert toRemove[..i + 1] == toRemove[..i] + [toRemove[i]];
      }
      assert toRemove[..|toRemove|] == toRemove;
    }

    method MarkReal(ex: Exchange)
      modifies this
      ensures positions == Mark(old(positions), ex)
    {
      ghost var book := positions;
      NoneMarked(book, ex);
      hide SlotOf, MarkOf, Mark;
      var todo := positions.Keys;
      while todo != {}
        invariant todo <= positions.Keys && positions == MarkOf(book, ex, book.Keys - todo)
        decreases |todo|
      {
        var k :| k in todo;
        OneMarked(book, ex, todo, k);
        if SlotOf(positions[k]) in ex {
          positions := positions[k := positions[k].(isReal := true)];
        }
        todo := todo - {k};
      }
      AllMarked(book, ex);
      assert book.Keys - todo == book.Keys;
    }

    /** Visits a snapshot of the keys; the code inserts into the map it iterates over. */
    method ForwardPass(ex: Exchange, now: int)
      returns (toRemove: seq<PosKey>, sideChanged: set<string>, ghost order: seq<PosKey>)
      modifies this
      ensures Lists(order, old(positions))
      ensures Pass(positions, toRemove, sideChanged) == Forward(order, old(positions), ex, now)
    {
      toRemove, sideChanged, order := [], {}, [];
      var todo := positions.Keys;
      hide Forward;
      NothingVisited(positions, ex, now);
      while todo != {}
        invariant todo <= old(positions).Keys
        invariant forall k :: k in order <==> k in old(positions) && k !in todo
        invariant forall i, j :: 0 <= i < j < |order| ==> order[i] != order[j]
        invariant Pass(positions, toRemove, sideChanged) == Forward(order, old(positions), ex, now)
        decreases |todo|
      {
        var k :| k in todo;
        todo := todo - {k};
        ForwardSnoc(order, k, old(positions), ex, now);
        order := order + [k];
        if k in positions && SlotOf(positions[k]) !in ex {
          var p := positions[k];
          if p.isReal {
            if k.External? && OtherSide(p) in ex {
              var ep := ex[OtherSide(p)];
              var q := Resided(p, ep);
              positions := positions[k := q];
              var newKey := External(ep.symbol, ep.side);
              if newKey != k {
                toRemove := toRemove + [k];
                positions := positions[newKey := q];
              }
              sideChanged := sideChanged + {q.symbol};
            } else {
              toRemove := toRemove + [k];
            }
          } else if AgeHours(p, now) >= PAPER_LIFE_HOURS {
            toRemove := toRemove + [k];
          }
        }
      }
    }

    method InternalSlots() returns (internal: set<Slot>)
      ensures forall e :: e in internal <==> Internal(positions, e)
    {
      internal := set k | k in positions :: SlotOf(positions[k]);
    }

    method ReverseImport(ex: Exchange, sideChanged: set<string>, now: int) returns (imported: nat)
      requires WellKeyed(ex)
      modifies this
      ensures positions == Import(old(positions), ex, Missing(old(positions), ex, sideChanged), now)
      ensures imported == |Missing(old(positions), ex, sideChanged)|
    {
      var internal := InternalSlots();
      imported := ImportMissing(ex, sideChanged, internal, Missing(positions, ex, sideChanged), now);
    }

    method ImportMissing(ex: Exchange, sideChanged: set<string>, internal: set<Slot>, ghost missing: set<Slot>,
                         now: int)
      returns (imported: nat)
      requires WellKeyed(ex)
      requires forall e :: e in missing <==> e in ex && ex[e].symbol !in sideChanged && e !in internal
      modifies this
      ensures positions == Import(old(positions), ex, missing, now)
      ensures imported == |missing|
    {
      ghost var book := positions;
      assert forall e :: e in ex ==> (ex[e].symbol, ex[e].side) == e;
      hide *;
      ImportNothing(book, ex, now);
      imported := 0;
      var todo := ex.Keys;
      assert missing - todo == {};
      while todo != {}
        invariant todo <= ex.Keys && imported == |missing - todo|
        invariant positions == Import(book, ex, missing - todo, now)
        decreases |todo|
      {
        var e :| e in todo;
        ImportNext(book, ex, missing, todo, e, now);
        todo := todo - {e};
        if ex[e].symbol !in sideChanged && e !in internal {
          positions := positions[External(ex[e].symbol, ex[e].side) := Imported(ex[e], now)];
          imported := imported + 1;
        }
      }
      assert missing - todo == missing;
    }
  }

  lemma CountsAreZero(order: seq<PosKey>, book: Book, ex: Exchange, now: int)
    ensures |Forward(order, Mark(book, ex), ex, now).toRemove| == 0 <==>
            Forward(order, Mark(book, ex), ex, now).toRemove == []
    ensures |MissingAfter(order, book, ex, now)| == 0 <==> MissingAfter(order, book, ex, now) == {}
  {
  }

  lemma ImportNothing(book: Book, ex: Exchange, now: int)
    ensures Import(book, ex, {}, now) == book
  {
  }

  /** What a visit to one more slot makes of the import. */
  lemma ImportNext(book: Book, ex: Exchange, missing: set<Slot>, todo: set<Slot>, e: Slot, now: int)
    requires missing <= ex.Keys && e in todo && e in ex && (ex[e].symbol, ex[e].side) == e
    ensures |todo - {e}| < |todo|
    ensures var before := Import(book, ex, missing - todo, now);
            Import(book, ex, missing - (todo - {e}), now) ==
            if e in missing then before[External(ex[e].symbol, ex[e].side) := Imported(ex[e], now)] else before
    ensures |missing - (todo - {e})| == |missing - todo| + if e in missing then 1 else 0
  {
    hide Import, Imported;
    OneVisited(missing, todo, e);
    if e in missing {
      ImportOne(book, ex, missing - todo, e, now);
    } else {
      assert missing - (todo - {e}) == missing - todo;
    }
  }

  lemma ImportOne(book: Book, ex: Exchange, done: set<Slot>, e: Slot, now: int)
    requires done <= ex.Keys && e in ex
    ensures Import(book, ex, done + {e}, now) == Import(book, ex, done, now)[External(e.0, e.1) := Imported(ex[e], now)]
  {
    hide Import, Imported;
    var l := Import(book, ex, done + {e}, now);
    var r := Import(book, ex, done, now)[External(e.0, e.1) := Imported(ex[e], now)];
    forall k
      ensures k in l <==> k in r
      ensures k in l ==> l[k] == r[k]
    {
      ImportOneAt(book, ex, done, e, now, k);
    }
  }

  lemma ImportOneAt(book: Book, ex: Exchange, done: set<Slot>, e: Slot, now: int, k: PosKey)
    requires done <= ex.Keys && e in ex
    ensures var l := Import(book, ex, done + {e}, now);
            var r := Import(book, ex, done, now)[External(e.0, e.1) := Imported(ex[e], now)];
            (k in l <==> k in r) && (k in l ==> l[k] == r[k])
  {
    ImportShape(book, ex, done + {e}, now);
    ImportShape(book, ex, done, now);
    hide Import, Imported;
    assert k == External(e.0, e.1) <==> k.External? && (k.symbol, k.side) == e;
  }
}
