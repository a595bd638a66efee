/** End-state semantics of the four AFTER UPDATE rules of the version 4 schema and of the
    UPDATE statements of the data-access objects, as functions on `Catalog.Db`.

    Each rule fires only for a row whose guarded column actually changed. A single write in
    the modelled code never changes both `hidden` and `collected` of a minifigure, so at most
    one rule fires per write and the unspecified firing order of SQLite triggers never
    matters (`SingleRuleWrite`). The counter rule writes Minifigure too, but that write
    changes neither `hidden` nor `collected`, so no rule fires after it. */
module Rules {
  import opened Records
  import opened Catalog

  /** The outcome of an UPDATE statement: the new state and the number of rows it matched. */
  datatype Updated = Updated(db: Db, rows: nat)

  function Signed(v: bool, n: nat): int
  {
    if v then n as int else -(n as int)
  }

  // ------------------------------------------------ rule updateNumOfCollectedMinifigureInventoryItems

  /** The write `collected := v` on item `id`, followed by the counter rule when the value
      changed: the owning minifigure's counter moves by one. */
  function WriteItemCollected(db: Db, id: int, v: bool): Db
    requires id in db.items
  {
    var it := db.items[id];
    var items' := db.items[id := it.(collected := v)];
    if it.collected != v && it.minifigureId in db.minifigs then
      var m := db.minifigs[it.minifigureId];
      var m' := m.(numOfCollectedInventoryItems := m.numOfCollectedInventoryItems + Signed(v, 1));
      Db(db.series, db.minifigs[it.minifigureId := m'], items')
    else
      Db(db.series, db.minifigs, items')
  }

  /** Those of `rows` that belong to minifigure `mid` and whose `collected` differs from `v`. */
  function ChangedRows(items: map<int, InventoryItem>, mid: int, rows: set<int>, v: bool): set<int>
  {
    set id | id in rows && id in items && items[id].minifigureId == mid && items[id].collected != v
  }

  /** `collected := v` on those of `rows` that belong to minifigure `mid`, each write followed
      by the counter rule: the counter of `mid` moves by one per row that changed. */
  function SetItemRows(db: Db, mid: int, rows: set<int>, v: bool): Db
  {
    var items' := map id | id in db.items ::
      if id in rows && db.items[id].minifigureId == mid then db.items[id].(collected := v) else db.items[id];
    var n := |ChangedRows(db.items, mid, rows, v)|;
    var minifigs' :=
      if mid in db.minifigs then
        var m := db.minifigs[mid];
        db.minifigs[mid := m.(numOfCollectedInventoryItems := m.numOfCollectedInventoryItems + Signed(v, n))]
      else db.minifigs;
    Db(db.series, minifigs', items')
  }

  /** UPDATE MinifigureInventoryItem SET collected = v WHERE minifigureId = mid. */
  function SetItemsCollected(db: Db, mid: int, v: bool): Db
  {
    SetItemRows(db, mid, ItemsOf(db.items, mid), v)
  }

  // ------------------------------------------------ the three rules on Minifigure

  /** Guard of the hide rule: `hidden` changed and is now true. */
  predicate HideFires(before: Minifigure, after: Minifigure)
  {
    before.hidden != after.hidden && after.hidden
  }

  /** Guard of rule updateCollectedValuesOfMinifigureInventoryItemsToFalse. */
  predicate ClearFires(before: Minifigure, after: Minifigure)
  {
    before.collected != after.collected && !after.collected
    && after.numOfCollectedInventoryItems == after.inventorySize
  }

  /** Guard of rule updateCollectedValuesOfMinifigureInventoryItemsToTrue. */
  predicate FillFires(before: Minifigure, after: Minifigure)
  {
    before.collected != after.collected && after.collected
  }

  /** The write changes at most one of `hidden` and `collected`. */
  predicate SingleRuleWrite(before: Minifigure, after: Minifigure)
  {
    before.hidden == after.hidden || before.collected == after.collected
  }

  /** UPDATE Series SET numOfMinifigsHidden = numOfMinifigsHidden + 1 WHERE id = sid. */
  function BumpHidden(db: Db, sid: int): Db
  {
    if sid in db.series then
      var s := db.series[sid];
      db.(series := db.series[sid := s.(numOfMinifigsHidden := s.numOfMinifigsHidden + 1)])
    else db
  }

  /** The flags the hide rule resets. */
  function ResetFlags(m: Minifigure): Minifigure
  {
    m.(collected := false, wishListed := false, favorite := false)
  }

  /** A write of row `m` over minifigure `id`, followed by whichever rule its change fires.
      The hide rule's own reset write is a nested write that may fire the clearing rule. */
  function WriteMinifigure(db: Db, id: int, m: Minifigure): Db
    requires id in db.minifigs
    requires SingleRuleWrite(db.minifigs[id], m)
    decreases if HideFires(db.minifigs[id], m) then 1 else 0
  {
    var before := db.minifigs[id];
    var db1 := db.(minifigs := db.minifigs[id := m]);
    if HideFires(before, m) then
      var db2 := BumpHidden(db1, m.seriesId);
      var db3 := WriteMinifigure(db2, id, ResetFlags(m));
      SetItemsCollected(db3, id, false)
    else if ClearFires(before, m) then
      SetItemsCollected(db1, id, false)
    else if FillFires(before, m) then
      SetItemsCollected(db1, id, true)
    else
      db1
  }

  // ------------------------------------------------ MinifigureDao updates

  /** toggleMinifigureCollectedStateAndResetWishlistedState */
  function ToggleCollected(db: Db, id: int): Updated
  {
    if id !in db.minifigs then Updated(db, 0)
    else
      var m := db.minifigs[id];
      Updated(WriteMinifigure(db, id, m.(collected := !m.collected, wishListed := false)), 1)
  }

  /** toggleMinifigureWishlistedStateAndResetCollectedState */
  function ToggleWishlisted(db: Db, id: int): Updated
  {
    if id !in db.minifigs then Updated(db, 0)
    else
      var m := db.minifigs[id];
      Updated(WriteMinifigure(db, id, m.(wishListed := !m.wishListed, collected := false)), 1)
  }

  /** toggleMinifigureFavoriteState */
  function ToggleFavorite(db: Db, id: int): Updated
  {
    if id !in db.minifigs then Updated(db, 0)
    else
      var m := db.minifigs[id];
      Updated(WriteMinifigure(db, id, m.(favorite := !m.favorite)), 1)
  }

  /** toggleMinifigureHiddenState */
  function ToggleHidden(db: Db, id: int): Updated
  {
    if id !in db.minifigs then Updated(db, 0)
    else
      var m := db.minifigs[id];
      Updated(WriteMinifigure(db, id, m.(hidden := !m.hidden)), 1)
  }

  /** End state of the hide rule fired once for each minifigure of `h`, all of them visible
      minifigures of series `sid`: the series counts them as hidden, each is reset and loses
      its collected items (its counter drops by their number). */
  function HideRows(db: Db, sid: int, h: set<int>): Db
    requires h <= VisibleOf(db.minifigs, sid)
  {
    var series' :=
      if sid in db.series then
        var s := db.series[sid];
        db.series[sid := s.(numOfMinifigsHidden := s.numOfMinifigsHidden + |h|)]
      else db.series;
    var minifigs' := map id | id in db.minifigs ::
      if id in h then
        var m := db.minifigs[id];
        ResetFlags(m).(hidden := true,
                       numOfCollectedInventoryItems :=
                         m.numOfCollectedInventoryItems - |CollectedItemsOf(db.items, id)|)
      else db.minifigs[id];
    var items' := map id | id in db.items ::
      if db.items[id].minifigureId in h then db.items[id].(collected := false) else db.items[id];
    Db(series', minifigs', items')
  }

  /** hideSeries: UPDATE Minifigure SET hidden = 1 WHERE seriesId = sid AND hidden = 0. */
  function HideSeries(db: Db, sid: int): Updated
  {
    var h := VisibleOf(db.minifigs, sid);
    Updated(HideRows(db, sid, h), |h|)
  }

  /** `hidden := false` on the minifigures of `u`; no rule fires on such a write. */
  function UnhideRows(db: Db, u: set<int>): Db
  {
    db.(minifigs := map id | id in db.minifigs ::
          if id in u then db.minifigs[id].(hidden := false) else db.minifigs[id])
  }

  /** unhideSeries: UPDATE Minifigure SET hidden = 0 WHERE seriesId = sid. */
  function UnhideSeries(db: Db, sid: int): Updated
  {
    var u := MinifigsOf(db.minifigs, sid);
    Updated(UnhideRows(db, u), |u|)
  }

  // ------------------------------------------------ MinifigureInventoryItemDao updates

  /** toggleMinifigureInventoryItemCollectedState */
  function ToggleItemCollected(db: Db, itemId: int): Updated
  {
    if itemId !in db.items then Updated(db, 0)
    else Updated(WriteItemCollected(db, itemId, !db.items[itemId].collected), 1)
  }

  /** keepMinifigureCollectedStateInSync: collected becomes "counter equals inventory size";
      wishListed is reset when it becomes collected. Both CASE expressions read the row
      as it was before the write. */
  function KeepCollectedInSync(db: Db, mid: int): Db
  {
    if mid !in db.minifigs then db
    else
      var m := db.minifigs[mid];
      var full := m.numOfCollectedInventoryItems == m.inventorySize;
      WriteMinifigure(db, mid, m.(collected := full, wishListed := if full then false else m.wishListed))
  }

  /** The transaction toggleMinifigInvItemCollectedStateAndKeepMinifigCollectedStateInSync:
      the resync runs only when the item toggle matched a row, and targets the caller's
      `mid`, not the item's stored parent. */
  function ToggleItemAndKeepInSync(db: Db, itemId: int, mid: int): Db
  {
    var u := ToggleItemCollected(db, itemId);
    if u.rows == 0 then db else KeepCollectedInSync(u.db, mid)
  }

  // ------------------------------------------------ SeriesDao update

  /** setSeriesFavoriteState */
  function SetSeriesFavorite(db: Db, sid: int, favorite: bool): Db
  {
    if sid in db.series then db.(series := db.series[sid := db.series[sid].(favorite := favorite)])
    else db
  }
}
