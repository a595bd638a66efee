/** What each update of the data-access objects does to the store, and the invariants they
    keep: "never both collected and wishlisted" unconditionally, "counter = number of
    collected items" unconditionally, and "hidden rows are reset" for callers that act on
    visible minifigures only (the screens that issue these updates list visible ones). */
module DaoLemmas {
  import opened Records
  import opened Catalog
  import opened Rules
  import opened RuleLemmas

  /** Minifigure `id` is absent or visible. */
  predicate VisibleOrAbsent(db: Db, id: int)
  {
    id !in db.minifigs || !db.minifigs[id].hidden
  }

  /** The three invariants together. */
  ghost predicate Inv(db: Db)
  {
    CounterConsistent(db) && MutuallyExclusive(db) && HiddenReset(db)
  }

  lemma OthersCollectedKept(db: Db, r: Db, id: int, k: int)
    requires OnlyTouches(db, r, id) && k != id
    ensures CollectedItemsOf(r.items, k) == CollectedItemsOf(db.items, k)
  {
    forall i | i in r.items
      ensures (i in CollectedItemsOf(r.items, k)) == (i in CollectedItemsOf(db.items, k))
    {
      assert ItemPatchOf(r.items[i]) == ItemPatchOf(db.items[i]);
    }
  }

  /** A minifigure write never makes a row both collected and wishlisted unless it writes
      that combination itself. */
  lemma WriteKeepsExclusive(db: Db, id: int, m: Minifigure)
    requires id in db.minifigs && SingleRuleWrite(db.minifigs[id], m)
    requires MutuallyExclusive(db) && !(m.collected && m.wishListed)
    ensures MutuallyExclusive(WriteMinifigure(db, id, m))
  {
  }

  /** A write of a visible row that keeps it visible and not both collected and wishlisted
      keeps all three invariants. */
  lemma VisibleWriteKeepsInv(db: Db, id: int, m: Minifigure)
    requires Inv(db) && id in db.minifigs && !db.minifigs[id].hidden && !m.hidden
    requires m.numOfCollectedInventoryItems == db.minifigs[id].numOfCollectedInventoryItems
    requires !(m.collected && m.wishListed)
    ensures Inv(WriteMinifigure(db, id, m))
  {
    var r := WriteMinifigure(db, id, m);
    WriteMinifigureFrame(db, id, m);
    WriteMinifigureConsistent(db, id, m);
    forall k | k in r.minifigs && r.minifigs[k].hidden
      ensures CollectedItemsOf(r.items, k) == {}
    {
      OthersCollectedKept(db, r, id, k);
    }
  }

  /** Hiding visible rows keeps all three invariants. */
  lemma HideRowsKeepsInv(db: Db, sid: int, h: set<int>)
    requires Inv(db) && h <= VisibleOf(db.minifigs, sid)
    ensures Inv(HideRows(db, sid, h))
  {
    var r := HideRows(db, sid, h);
    HideRowsEffect(db, sid, h);
    forall k | k in r.minifigs && r.minifigs[k].hidden && k !in h
      ensures CollectedItemsOf(r.items, k) == CollectedItemsOf(db.items, k)
    {
    }
  }

  /** Clearing `hidden` keeps all three invariants: no rule runs and a visible row owes
      nothing to the hidden-reset invariant. */
  lemma UnhideRowsKeepsInv(db: Db, u: set<int>)
    requires Inv(db)
    ensures Inv(UnhideRows(db, u))
  {
  }

  // ------------------------------------------------ the four toggles

  /** toggleMinifigureCollectedStateAndResetWishlistedState flips `collected` and clears
      `wishListed` of the one row; collecting fills its inventory, uncollecting clears it
      only when its counter equals its inventory size. An unknown id changes nothing. */
  lemma ToggleCollectedEffect(db: Db, id: int)
    ensures var u := ToggleCollected(db, id);
      && (id !in db.minifigs ==> u == Updated(db, 0))
      && (id in db.minifigs ==>
            var m := db.minifigs[id];
            var r := u.db.minifigs[id];
            && u.rows == 1
            && r.collected == !m.collected && !r.wishListed
            && r.favorite == m.favorite && r.hidden == m.hidden
            && MinifigurePatchOf(r) == MinifigurePatchOf(m)
            && OnlyTouches(db, u.db, id) && u.db.series == db.series
            && (!m.collected ==> CollectedItemsOf(u.db.items, id) == ItemsOf(db.items, id))
            && (!m.collected && CounterConsistent(db) ==>
                  r.numOfCollectedInventoryItems == |ItemsOf(db.items, id)|)
            && (m.collected && m.numOfCollectedInventoryItems == m.inventorySize ==>
                  CollectedItemsOf(u.db.items, id) == {})
            && (m.collected && m.numOfCollectedInventoryItems != m.inventorySize ==>
                  u.db.items == db.items))
      && (CounterConsistent(db) ==> CounterConsistent(u.db))
      && (MutuallyExclusive(db) ==> MutuallyExclusive(u.db))
      && (Inv(db) && VisibleOrAbsent(db, id) ==> Inv(u.db))
  {
    if id in db.minifigs {
      var m := db.minifigs[id];
      var w := m.(collected := !m.collected, wishListed := false);
      WriteMinifigureFrame(db, id, w);
      if !m.collected {
        CollectRuleEffect(db, id, w);
      } else {
        UncollectRuleEffect(db, id, w);
      }
      if CounterConsistent(db) {
        WriteMinifigureConsistent(db, id, w);
      }
      if MutuallyExclusive(db) {
        WriteKeepsExclusive(db, id, w);
      }
      if Inv(db) && VisibleOrAbsent(db, id) {
        VisibleWriteKeepsInv(db, id, w);
      }
    }
  }

  /** toggleMinifigureWishlistedStateAndResetCollectedState flips `wishListed` and clears
      `collected`; when that uncollects a row whose counter equals its inventory size, its
      items are cleared. */
  lemma ToggleWishlistedEffect(db: Db, id: int)
    ensures var u := ToggleWishlisted(db, id);
      && (id !in db.minifigs ==> u == Updated(db, 0))
      && (id in db.minifigs ==>
            var m := db.minifigs[id];
            var r := u.db.minifigs[id];
            && u.rows == 1
            && r.wishListed == !m.wishListed && !r.collected
            && r.favorite == m.favorite && r.hidden == m.hidden
            && MinifigurePatchOf(r) == MinifigurePatchOf(m)
            && OnlyTouches(db, u.db, id) && u.db.series == db.series
            && (m.collected && m.numOfCollectedInventoryItems == m.inventorySize ==>
                  CollectedItemsOf(u.db.items, id) == {})
            && (!(m.collected && m.numOfCollectedInventoryItems == m.inventorySize) ==>
                  u.db.items == db.items))
      && (CounterConsistent(db) ==> CounterConsistent(u.db))
      && (MutuallyExclusive(db) ==> MutuallyExclusive(u.db))
      && (Inv(db) && VisibleOrAbsent(db, id) ==> Inv(u.db))
  {
    if id in db.minifigs {
      var m := db.minifigs[id];
      var w := m.(wishListed := !m.wishListed, collected := false);
      WriteMinifigureFrame(db, id, w);
      if m.collected {
        UncollectRuleEffect(db, id, w);
      }
      if CounterConsistent(db) {
        WriteMinifigureConsistent(db, id, w);
      }
      if MutuallyExclusive(db) {
        WriteKeepsExclusive(db, id, w);
      }
      if Inv(db) && VisibleOrAbsent(db, id) {
        VisibleWriteKeepsInv(db, id, w);
      }
    }
  }

  /** toggleMinifigureFavoriteState flips `favorite` of the one row and nothing else. */
  lemma ToggleFavoriteEffect(db: Db, id: int)
    ensures var u := ToggleFavorite(db, id);
      && (id !in db.minifigs ==> u == Updated(db, 0))
      && (id in db.minifigs ==>
            u.rows == 1 && u.db.minifigs[id].favorite == !db.minifigs[id].favorite
            && u.db == db.(minifigs := db.minifigs[id := db.minifigs[id].(favorite := !db.minifigs[id].favorite)]))
      && (Inv(db) && VisibleOrAbsent(db, id) ==> Inv(u.db))
  {
  }

  /** Toggling the favorite flag twice restores the store. */
  lemma ToggleFavoriteTwice(db: Db, id: int)
    ensures ToggleFavorite(ToggleFavorite(db, id).db, id).db == db
  {
  }

  /** toggleMinifigureHiddenState: hiding a visible row is the hide rule on that one row
      (its series counts one more hidden minifigure, the row is reset, its items are
      uncollected); unhiding only clears `hidden`. Both keep the invariants. */
  lemma ToggleHiddenEffect(db: Db, id: int)
    ensures var u := ToggleHidden(db, id);
      && (id !in db.minifigs ==> u == Updated(db, 0))
      && (id in db.minifigs && !db.minifigs[id].hidden ==>
            u == Updated(HideRows(db, db.minifigs[id].seriesId, {id}), 1))
      && (id in db.minifigs && db.minifigs[id].hidden ==>
            u == Updated(db.(minifigs := db.minifigs[id := db.minifigs[id].(hidden := false)]), 1))
      && (MutuallyExclusive(db) ==> MutuallyExclusive(u.db))
      && (CounterConsistent(db) ==> CounterConsistent(u.db))
      && (Inv(db) ==> Inv(u.db))
  {
    if id in db.minifigs {
      var m := db.minifigs[id];
      if !m.hidden {
        HideWriteIsHideRows(db, id);
        HideRowsEffect(db, m.seriesId, {id});
        if MutuallyExclusive(db) {
          WriteKeepsExclusive(db, id, m.(hidden := true));
        }
        if Inv(db) {
          HideRowsKeepsInv(db, m.seriesId, {id});
        }
      } else {
        UnhideRunsNoRule(db, id);
        assert db.(minifigs := db.minifigs[id := m.(hidden := false)]) == UnhideRows(db, {id});
        if Inv(db) {
          UnhideRowsKeepsInv(db, {id});
        }
        if CounterConsistent(db) {
          WriteMinifigureConsistent(db, id, m.(hidden := false));
        }
      }
    }
  }

  // ------------------------------------------------ hideSeries / unhideSeries

  /** hideSeries hides exactly the visible minifigures of the series and reports how many
      there were; afterwards the series has none visible, and a second call matches no row
      and changes nothing. */
  lemma HideSeriesEffect(db: Db, sid: int)
    ensures var u := HideSeries(db, sid);
      && u.rows == |VisibleOf(db.minifigs, sid)|
      && VisibleOf(u.db.minifigs, sid) == {}
      && MinifigsOf(u.db.minifigs, sid) == MinifigsOf(db.minifigs, sid)
      && (forall k :: k in db.minifigs && k !in VisibleOf(db.minifigs, sid) ==> u.db.minifigs[k] == db.minifigs[k])
      && HideSeries(u.db, sid) == Updated(u.db, 0)
      && (Inv(db) ==> Inv(u.db))
  {
    var h := VisibleOf(db.minifigs, sid);
    var r := HideRows(db, sid, h);
    HideRowsEffect(db, sid, h);
    HideRowsKeepsMembers(db, sid, h);
    assert VisibleOf(r.minifigs, sid) == {};
    HideRowsEmpty(r, sid);
    if Inv(db) {
      HideRowsKeepsInv(db, sid, h);
    }
  }

  /** Hiding rows moves none of them to another series. */
  lemma HideRowsKeepsMembers(db: Db, sid: int, h: set<int>)
    requires h <= VisibleOf(db.minifigs, sid)
    ensures MinifigsOf(HideRows(db, sid, h).minifigs, sid) == MinifigsOf(db.minifigs, sid)
  {
  }

  /** unhideSeries clears `hidden` on every minifigure of the series and reports their total
      number; series, items and the series' hidden counter are left as they were. */
  lemma UnhideSeriesEffect(db: Db, sid: int)
    ensures var u := UnhideSeries(db, sid);
      && u.rows == |MinifigsOf(db.minifigs, sid)|
      && VisibleOf(u.db.minifigs, sid) == MinifigsOf(db.minifigs, sid)
      && u.db.series == db.series && u.db.items == db.items
      && u.db.minifigs.Keys == db.minifigs.Keys
      && (forall k :: k in db.minifigs && k !in MinifigsOf(db.minifigs, sid) ==> u.db.minifigs[k] == db.minifigs[k])
      && (forall k :: k in db.minifigs ==> u.db.minifigs[k] == db.minifigs[k].(hidden := u.db.minifigs[k].hidden))
      && (Inv(db) ==> Inv(u.db))
  {
  }

  // ------------------------------------------------ setSeriesFavoriteState

  /** setSeriesFavoriteState sets the flag of that one series; repeating it changes nothing. */
  lemma SetSeriesFavoriteEffect(db: Db, sid: int, favorite: bool)
    ensures var r := SetSeriesFavorite(db, sid, favorite);
      && r.minifigs == db.minifigs && r.items == db.items && r.series.Keys == db.series.Keys
      && (sid in db.series ==> r.series[sid] == db.series[sid].(favorite := favorite))
      && (forall s :: s in db.series && s != sid ==> r.series[s] == db.series[s])
      && SetSeriesFavorite(r, sid, favorite) == r
      && (Inv(db) ==> Inv(r))
  {
  }
}
