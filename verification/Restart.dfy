/**
 A restart between two syncs: the state is saved, loaded again and reconciled. Opening times are not
 saved, so the age of a paper position is lost.
 */
module Restart {
  import opened PortfolioRisk
  import opened Reconciliation
  import Files = StatePersistence

  /** The positions a restart brings back. */
  function Reloaded(s: Files.State): Book {
    Files.Restored(Files.Snapshot(s)).positions
  }

  lemma ReloadedBook(s: Files.State)
    requires KeysMatch(s.positions)
    ensures KeysMatch(Reloaded(s)) && Reloaded(s).Keys == s.positions.Keys
    ensures forall k :: k in s.positions ==> Reloaded(s)[k] == s.positions[k].(openedAt := Files.EPOCH)
  {
    Files.RestoredSnapshot(s);
    hide Files.Restored, Files.Snapshot;
  }

  /**
   The first sync after a restart drops every paper position that is not on the exchange, however
   young, once the clock is four hours past its origin; without the restart the same sync keeps
   those under four hours old.
   */
  lemma PaperSurvivesRestartIff(order: seq<PosKey>, again: seq<PosKey>, s: Files.State, ex: Exchange, now: int,
                                k: PosKey)
    requires KeysMatch(s.positions) && WellKeyed(ex) && k in s.positions && !s.positions[k].isReal
    requires Lists(order, s.positions) && Lists(again, Reloaded(s))
    ensures k in Sync(order, s.positions, ex, now) <==>
            SlotOf(s.positions[k]) in ex || now - s.positions[k].openedAt < FOUR_HOURS
    ensures k in Sync(again, Reloaded(s), ex, now) <==> SlotOf(s.positions[k]) in ex || now < FOUR_HOURS
  {
    ReloadedBook(s);
    SurvivesIff(order, s.positions, ex, now, k);
    SurvivesIff(again, Reloaded(s), ex, now, k);
    hide Sync, Reloaded;
  }

  /** Real positions lose nothing by it: after the sync they are where the exchange has them, as without the restart. */
  lemma RealPositionsUnaffected(order: seq<PosKey>, again: seq<PosKey>, s: Files.State, ex: Exchange, now: int)
    requires KeysMatch(s.positions) && WellKeyed(ex) && Lists(order, s.positions) && Lists(again, Reloaded(s))
    requires BookSidesOk(s.positions) && ExchangeSidesOk(ex)
    ensures RealSlots(Sync(again, Reloaded(s), ex, now)) == RealSlots(Sync(order, s.positions, ex, now)) == ex.Keys
  {
    ReloadedBook(s);
    SyncReconciles(order, s.positions, ex, now);
    assert BookSidesOk(Reloaded(s)) by {
      hide Reloaded;
    }
    SyncReconciles(again, Reloaded(s), ex, now);
  }
}
