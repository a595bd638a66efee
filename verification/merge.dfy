/** The merge a sync performs (`upsertAll`): upserts of the three patch lists, in the order
    series, minifigures, items, inside one transaction, followed by a pass, chunked to the
    SQLite bind limit, that marks the listed items collected when their minifigure is. */
module Merge {
  import opened Records
  import opened Catalog
  import opened Rules

  /** Most parameters SQLite binds in one statement. */
  const SQLITE_BIND_LIMIT: nat := 999
  /** Ids per UPDATE of the collected pass. */
  const ITEM_IDS_CHUNK_SIZE: nat := SQLITE_BIND_LIMIT

  /** The end of the transaction: committed with its new state, or rolled back by a foreign
      key violation (the exception then leaves `upsertAll`). */
  datatype Outcome = Committed(db: Db) | RolledBack

  // ------------------------------------------------ last entry wins

  /** Entry `i` is the last occurrence of its key. */
  predicate IsLast(keys: seq<int>, i: int)
    requires 0 <= i < |keys|
  {
    forall j :: i < j < |keys| ==> keys[j] != keys[i]
  }

  /** The position of the last occurrence of `k`. */
  function LastIndex(keys: seq<int>, k: int): (i: nat)
    requires k in keys
    ensures i < |keys| && keys[i] == k && IsLast(keys, i)
    decreases |keys|
  {
    if keys[|keys| - 1] == k then |keys| - 1
    else
      assert keys == keys[..|keys| - 1] + [keys[|keys| - 1]];
      LastIndex(keys[..|keys| - 1], k)
  }

  // ------------------------------------------------ Series

  function SeriesKeys(ps: seq<PartialSeries>): (keys: seq<int>)
    ensures |keys| == |ps| && forall i :: 0 <= i < |ps| ==> keys[i] == ps[i].id
  {
    seq(|ps|, i requires 0 <= i < |ps| => ps[i].id)
  }

  /** Upsert of one series patch: INSERT with the column defaults when the id is new,
      otherwise an UPDATE of the patch columns only. */
  function UpsertSeries(m: map<int, Series>, p: PartialSeries): (r: map<int, Series>)
    ensures r.Keys == m.Keys + {p.id}
    ensures SeriesPatchOf(r[p.id]) == p
    ensures p.id in m ==> SameSeriesUserState(r[p.id], m[p.id])
    ensures p.id !in m ==> r[p.id] == NewSeries(p)
    ensures forall k :: k in m && k != p.id ==> r[k] == m[k]
  {
    m[p.id := if p.id in m then PatchSeries(m[p.id], p) else NewSeries(p)]
  }

  /** insertOrUpdateSeries: the patches upserted in list order. */
  function UpsertSeriesList(m: map<int, Series>, ps: seq<PartialSeries>): map<int, Series>
    decreases |ps|
  {
    if ps == [] then m else UpsertSeries(UpsertSeriesList(m, ps[..|ps| - 1]), ps[|ps| - 1])
  }

  /** After the list is upserted, the key set grows by the listed ids, unlisted rows are
      kept, and each listed id holds its last patch over the row it had (or over the
      defaults when it had none). */
  lemma {:induction false} UpsertSeriesListEffect(m: map<int, Series>, ps: seq<PartialSeries>)
    ensures var r := UpsertSeriesList(m, ps);
      && r.Keys == m.Keys + Elems(SeriesKeys(ps))
      && (forall k :: k in m && k !in Elems(SeriesKeys(ps)) ==> r[k] == m[k])
      && (forall i :: 0 <= i < |ps| && IsLast(SeriesKeys(ps), i) ==> SeriesEntryApplied(m, ps, i))
    decreases |ps|
  {
    if ps != [] {
      var n := |ps| - 1;
      var init := ps[..n];
      UpsertSeriesListEffect(m, init);
      UpsertSeriesListKeys(m, ps);
      forall i | 0 <= i < |ps| && IsLast(SeriesKeys(ps), i)
        ensures SeriesEntryApplied(m, ps, i)
      {
        UpsertSeriesListStep(m, ps, i);
      }
    }
  }

  /** The listed id of entry `i` holds that patch over the row `m` had for it, or over the
      defaults. */
  predicate SeriesEntryApplied(m: map<int, Series>, ps: seq<PartialSeries>, i: int)
    requires 0 <= i < |ps|
  {
    var r := UpsertSeriesList(m, ps);
    ps[i].id in r
    && r[ps[i].id] == if ps[i].id in m then PatchSeries(m[ps[i].id], ps[i]) else NewSeries(ps[i])
  }

  lemma UpsertSeriesListStep(m: map<int, Series>, ps: seq<PartialSeries>, i: int)
    requires 0 <= i < |ps| && IsLast(SeriesKeys(ps), i)
    requires var init := ps[..|ps| - 1];
      forall j :: 0 <= j < |init| && IsLast(SeriesKeys(init), j) ==> SeriesEntryApplied(m, init, j)
    ensures SeriesEntryApplied(m, ps, i)
  {
    var n := |ps| - 1;
    var init := ps[..n];
    assert SeriesKeys(ps) == SeriesKeys(init) + [ps[n].id];
    var prev := UpsertSeriesList(m, init);
    if i < n {
      assert IsLast(SeriesKeys(init), i);
      assert ps[i].id != ps[n].id;
      assert SeriesEntryApplied(m, init, i);
    } else if ps[n].id in Elems(SeriesKeys(init)) {
      var j := LastIndex(SeriesKeys(init), ps[n].id);
      assert SeriesEntryApplied(m, init, j);
    } else {
      UpsertSeriesListKeys(m, init);
    }
  }

  lemma {:induction false} UpsertSeriesListKeys(m: map<int, Series>, ps: seq<PartialSeries>)
    ensures var r := UpsertSeriesList(m, ps);
      && r.Keys == m.Keys + Elems(SeriesKeys(ps))
      && (forall k :: k in m && k !in Elems(SeriesKeys(ps)) ==> r[k] == m[k])
    decreases |ps|
  {
    if ps != [] {
      var n := |ps| - 1;
      UpsertSeriesListKeys(m, ps[..n]);
      assert SeriesKeys(ps) == SeriesKeys(ps[..n]) + [ps[n].id];
    }
  }

  /** Upserting patches the rows already carry changes nothing. */
  lemma UpsertSeriesListFixpoint(m: map<int, Series>, ps: seq<PartialSeries>)
    requires forall i :: 0 <= i < |ps| && IsLast(SeriesKeys(ps), i) ==>
      ps[i].id in m && SeriesPatchOf(m[ps[i].id]) == ps[i]
    ensures UpsertSeriesList(m, ps) == m
  {
    var r := UpsertSeriesList(m, ps);
    UpsertSeriesListEffect(m, ps);
    forall k | k in r ensures k in m && r[k] == m[k] {
      if k in Elems(SeriesKeys(ps)) {
        var i := LastIndex(SeriesKeys(ps), k);
        UpsertSeriesListFixpointAt(m, ps, i);
      }
    }
    assert r.Keys == m.Keys;
  }

  /** One listed id: its own patch leaves the stored row as it was. */
  lemma UpsertSeriesListFixpointAt(m: map<int, Series>, ps: seq<PartialSeries>, i: int)
    requires 0 <= i < |ps| && ps[i].id in m && SeriesPatchOf(m[ps[i].id]) == ps[i]
    requires SeriesEntryApplied(m, ps, i)
    ensures var r := UpsertSeriesList(m, ps); ps[i].id in r && r[ps[i].id] == m[ps[i].id]
  {
  }

  // ------------------------------------------------ Minifigure

  function MinifigureKeys(ps: seq<PartialMinifigure>): (keys: seq<int>)
    ensures |keys| == |ps| && forall i :: 0 <= i < |ps| ==> keys[i] == ps[i].id
  {
    seq(|ps|, i requires 0 <= i < |ps| => ps[i].id)
  }

  /** Upsert of one minifigure patch: the flags and the counter of a stored row are kept. */
  function UpsertMinifigure(m: map<int, Minifigure>, p: PartialMinifigure): (r: map<int, Minifigure>)
    ensures r.Keys == m.Keys + {p.id}
    ensures MinifigurePatchOf(r[p.id]) == p
    ensures p.id in m ==> SameMinifigureUserState(r[p.id], m[p.id])
    ensures p.id !in m ==> r[p.id] == NewMinifigure(p)
    ensures forall k :: k in m && k != p.id ==> r[k] == m[k]
  {
    m[p.id := if p.id in m then PatchMinifigure(m[p.id], p) else NewMinifigure(p)]
  }

  /** insertOrUpdateMinifigures. */
  function UpsertMinifigureList(m: map<int, Minifigure>, ps: seq<PartialMinifigure>): map<int, Minifigure>
    decreases |ps|
  {
    if ps == [] then m else UpsertMinifigure(UpsertMinifigureList(m, ps[..|ps| - 1]), ps[|ps| - 1])
  }

  lemma {:induction false} UpsertMinifigureListEffect(m: map<int, Minifigure>, ps: seq<PartialMinifigure>)
    ensures var r := UpsertMinifigureList(m, ps);
      && r.Keys == m.Keys + Elems(MinifigureKeys(ps))
      && (forall k :: k in m && k !in Elems(MinifigureKeys(ps)) ==> r[k] == m[k])
      && (forall i :: 0 <= i < |ps| && IsLast(MinifigureKeys(ps), i) ==> MinifigureEntryApplied(m, ps, i))
    decreases |ps|
  {
    if ps != [] {
      var n := |ps| - 1;
      var init := ps[..n];
      UpsertMinifigureListEffect(m, init);
      UpsertMinifigureListKeys(m, ps);
      forall i | 0 <= i < |ps| && IsLast(MinifigureKeys(ps), i)
        ensures MinifigureEntryApplied(m, ps, i)
      {
        UpsertMinifigureListStep(m, ps, i);
      }
    }
  }

  /** The listed id of entry `i` holds that patch over the row `m` had for it, or over the
      defaults. */
  predicate MinifigureEntryApplied(m: map<int, Minifigure>, ps: seq<PartialMinifigure>, i: int)
    requires 0 <= i < |ps|
  {
    var r := UpsertMinifigureList(m, ps);
    ps[i].id in r
    && r[ps[i].id] == if ps[i].id in m then PatchMinifigure(m[ps[i].id], ps[i]) else NewMinifigure(ps[i])
  }

  lemma UpsertMinifigureListStep(m: map<int, Minifigure>, ps: seq<PartialMinifigure>, i: int)
    requires 0 <= i < |ps| && IsLast(MinifigureKeys(ps), i)
    requires var init := ps[..|ps| - 1];
      forall j :: 0 <= j < |init| && IsLast(MinifigureKeys(init), j) ==> MinifigureEntryApplied(m, init, j)
    ensures MinifigureEntryApplied(m, ps, i)
  {
    var n := |ps| - 1;
    var init := ps[..n];
    assert MinifigureKeys(ps) == MinifigureKeys(init) + [ps[n].id];
    var prev := UpsertMinifigureList(m, init);
    if i < n {
      assert IsLast(MinifigureKeys(init), i);
      assert ps[i].id != ps[n].id;
      assert MinifigureEntryApplied(m, init, i);
    } else if ps[n].id in Elems(MinifigureKeys(init)) {
      var j := LastIndex(MinifigureKeys(init), ps[n].id);
      assert MinifigureEntryApplied(m, init, j);
    } else {
      UpsertMinifigureListKeys(m, init);
    }
  }

  lemma {:induction false} UpsertMinifigureListKeys(m: map<int, Minifigure>, ps: seq<PartialMinifigure>)
    ensures var r := UpsertMinifigureList(m, ps);
      && r.Keys == m.Keys + Elems(MinifigureKeys(ps))
      && (forall k :: k in m && k !in Elems(MinifigureKeys(ps)) ==> r[k] == m[k])
    decreases |ps|
  {
    if ps != [] {
      var n := |ps| - 1;
      UpsertMinifigureListKeys(m, ps[..n]);
      assert MinifigureKeys(ps) == MinifigureKeys(ps[..n]) + [ps[n].id];
    }
  }

  lemma UpsertMinifigureListFixpoint(m: map<int, Minifigure>, ps: seq<PartialMinifigure>)
    requires forall i :: 0 <= i < |ps| && IsLast(MinifigureKeys(ps), i) ==>
      ps[i].id in m && MinifigurePatchOf(m[ps[i].id]) == ps[i]
    ensures UpsertMinifigureList(m, ps) == m
  {
    var r := UpsertMinifigureList(m, ps);
    UpsertMinifigureListEffect(m, ps);
    forall k | k in r ensures k in m && r[k] == m[k] {
      if k in Elems(MinifigureKeys(ps)) {
        var i := LastIndex(MinifigureKeys(ps), k);
        UpsertMinifigureListFixpointAt(m, ps, i);
      }
    }
    assert r.Keys == m.Keys;
  }

  /** One listed id: its own patch leaves the stored row as it was. */
  lemma UpsertMinifigureListFixpointAt(m: map<int, Minifigure>, ps: seq<PartialMinifigure>, i: int)
    requires 0 <= i < |ps| && ps[i].id in m && MinifigurePatchOf(m[ps[i].id]) == ps[i]
    requires MinifigureEntryApplied(m, ps, i)
    ensures var r := UpsertMinifigureList(m, ps); ps[i].id in r && r[ps[i].id] == m[ps[i].id]
  {
  }

  // ------------------------------------------------ MinifigureInventoryItem

  function ItemKeys(ps: seq<PartialInventoryItem>): (keys: seq<int>)
    ensures |keys| == |ps| && forall i :: 0 <= i < |ps| ==> keys[i] == ps[i].id
  {
    seq(|ps|, i requires 0 <= i < |ps| => ps[i].id)
  }

  /** Upsert of one item patch: a stored item keeps its `collected`. */
  function UpsertItem(m: map<int, InventoryItem>, p: PartialInventoryItem): (r: map<int, InventoryItem>)
    ensures r.Keys == m.Keys + {p.id}
    ensures ItemPatchOf(r[p.id]) == p
    ensures p.id in m ==> r[p.id].collected == m[p.id].collected
    ensures p.id !in m ==> r[p.id] == NewItem(p)
    ensures forall k :: k in m && k != p.id ==> r[k] == m[k]
  {
    m[p.id := if p.id in m then PatchItem(m[p.id], p) else NewItem(p)]
  }

  /** insertOrUpdateMinifigInventoryItems. */
  function UpsertItemList(m: map<int, InventoryItem>, ps: seq<PartialInventoryItem>): map<int, InventoryItem>
    decreases |ps|
  {
    if ps == [] then m else UpsertItem(UpsertItemList(m, ps[..|ps| - 1]), ps[|ps| - 1])
  }

  lemma {:induction false} UpsertItemListEffect(m: map<int, InventoryItem>, ps: seq<PartialInventoryItem>)
    ensures var r := UpsertItemList(m, ps);
      && r.Keys == m.Keys + Elems(ItemKeys(ps))
      && (forall k :: k in m && k !in Elems(ItemKeys(ps)) ==> r[k] == m[k])
      && (forall i :: 0 <= i < |ps| && IsLast(ItemKeys(ps), i) ==> ItemEntryApplied(m, ps, i))
    decreases |ps|
  {
    if ps != [] {
      var n := |ps| - 1;
      var init := ps[..n];
      UpsertItemListEffect(m, init);
      UpsertItemListKeys(m, ps);
      forall i | 0 <= i < |ps| && IsLast(ItemKeys(ps), i)
        ensures ItemEntryApplied(m, ps, i)
      {
        UpsertItemListStep(m, ps, i);
      }
    }
  }

  /** The listed id of entry `i` holds that patch over the row `m` had for it, or over the
      defaults. */
  predicate ItemEntryApplied(m: map<int, InventoryItem>, ps: seq<PartialInventoryItem>, i: int)
    requires 0 <= i < |ps|
  {
    var r := UpsertItemList(m, ps);
    ps[i].id in r
    && r[ps[i].id] == if ps[i].id in m then PatchItem(m[ps[i].id], ps[i]) else NewItem(ps[i])
  }

  lemma UpsertItemListStep(m: map<int, InventoryItem>, ps: seq<PartialInventoryItem>, i: int)
    requires 0 <= i < |ps| && IsLast(ItemKeys(ps), i)
    requires var init := ps[..|ps| - 1];
      forall j :: 0 <= j < |init| && IsLast(ItemKeys(init), j) ==> ItemEntryApplied(m, init, j)
    ensures ItemEntryApplied(m, ps, i)
  {
    var n := |ps| - 1;
    var init := ps[..n];
    assert ItemKeys(ps) == ItemKeys(init) + [ps[n].id];
    var prev := UpsertItemList(m, init);
    if i < n {
      assert IsLast(ItemKeys(init), i);
      assert ps[i].id != ps[n].id;
      assert ItemEntryApplied(m, init, i);
    } else if ps[n].id in Elems(ItemKeys(init)) {
      var j := LastIndex(ItemKeys(init), ps[n].id);
      assert ItemEntryApplied(m, init, j);
    } else {
      UpsertItemListKeys(m, init);
    }
  }

  lemma {:induction false} UpsertItemListKeys(m: map<int, InventoryItem>, ps: seq<PartialInventoryItem>)
    ensures var r := UpsertItemList(m, ps);
      && r.Keys == m.Keys + Elems(ItemKeys(ps))
      && (forall k :: k in m && k !in Elems(ItemKeys(ps)) ==> r[k] == m[k])
    decreases |ps|
  {
    if ps != [] {
      var n := |ps| - 1;
      UpsertItemListKeys(m, ps[..n]);
      assert ItemKeys(ps) == ItemKeys(ps[..n]) + [ps[n].id];
    }
  }

  lemma UpsertItemListFixpoint(m: map<int, InventoryItem>, ps: seq<PartialInventoryItem>)
    requires forall i :: 0 <= i < |ps| && IsLast(ItemKeys(ps), i) ==>
      ps[i].id in m && ItemPatchOf(m[ps[i].id]) == ps[i]
    ensures UpsertItemList(m, ps) == m
  {
    var r := UpsertItemList(m, ps);
    UpsertItemListEffect(m, ps);
    forall k | k in r ensures k in m && r[k] == m[k] {
      if k in Elems(ItemKeys(ps)) {
        var i := LastIndex(ItemKeys(ps), k);
        UpsertItemListFixpointAt(m, ps, i);
      }
    }
    assert r.Keys == m.Keys;
  }

  /** One listed id: its own patch leaves the stored row as it was. */
  lemma UpsertItemListFixpointAt(m: map<int, InventoryItem>, ps: seq<PartialInventoryItem>, i: int)
    requires 0 <= i < |ps| && ps[i].id in m && ItemPatchOf(m[ps[i].id]) == ps[i]
    requires ItemEntryApplied(m, ps, i)
    ensures var r := UpsertItemList(m, ps); ps[i].id in r && r[ps[i].id] == m[ps[i].id]
  {
  }

  // ------------------------------------------------ the collected pass

  /** The rows applyCollectedStatusToMinifigureInventoryItems matches for the ids `ids`:
      stored items whose stored minifigure is collected. */
  function EligibleRows(db: Db, ids: set<int>): set<int>
  {
    set id | id in ids && id in db.items && db.items[id].minifigureId in db.minifigs
                 && db.minifigs[db.items[id].minifigureId].collected
  }

  /** `collected := true` on the items of `rows`, each write followed by the counter rule:
      every minifigure's counter grows by the number of its items that changed. */
  function MarkRows(db: Db, rows: set<int>): Db
  {
    var items' := map id | id in db.items ::
      if id in rows then db.items[id].(collected := true) else db.items[id];
    var minifigs' := map k | k in db.minifigs ::
      db.minifigs[k].(numOfCollectedInventoryItems :=
        db.minifigs[k].numOfCollectedInventoryItems + |ChangedRows(db.items, k, rows, true)|);
    Db(db.series, minifigs', items')
  }

  /** End state of the collected pass over the item ids `ids`. */
  function ApplyCollectedStatus(db: Db, ids: seq<int>): Db
  {
    MarkRows(db, EligibleRows(db, Elems(ids)))
  }

  /** One more row of the pass: writing item `x` collected after the rows `d` gives the
      closed form for `d + {x}` (an item already collected changes nothing). */
  lemma MarkRowsStep(db: Db, d: set<int>, x: int)
    requires x in db.items
    ensures x in MarkRows(db, d).items
    ensures WriteItemCollected(MarkRows(db, d), x, true) == MarkRows(db, d + {x})
  {
    MarkRowsStepItems(db, d, x);
    MarkRowsStepMinifigs(db, d, x);
  }

  lemma MarkRowsStepItems(db: Db, d: set<int>, x: int)
    requires x in db.items
    ensures x in MarkRows(db, d).items
    ensures WriteItemCollected(MarkRows(db, d), x, true).items == MarkRows(db, d + {x}).items
    ensures WriteItemCollected(MarkRows(db, d), x, true).series == MarkRows(db, d + {x}).series
  {
  }

  lemma MarkRowsStepMinifigs(db: Db, d: set<int>, x: int)
    requires x in db.items
    ensures x in MarkRows(db, d).items
    ensures WriteItemCollected(MarkRows(db, d), x, true).minifigs == MarkRows(db, d + {x}).minifigs
  {
    var e := MarkRows(db, d);
    var goal := MarkRows(db, d + {x});
    var r := WriteItemCollected(e, x, true);
    var k := db.items[x].minifigureId;
    var changes := x !in d && !db.items[x].collected;
    MarkRowsCounterGrows(db, d, x);
    WriteItemCollectedMinifigs(e, x);
    assert !e.items[x].collected == changes;
    CounterBumpAgrees(e.minifigs, goal.minifigs, r.minifigs, k, changes);
  }

  /** A table equal to `e` except that the counter of `k` grew by one when `changes` is the
      table whose every counter grew by one exactly for `k` when `changes`. */
  lemma CounterBumpAgrees(e: map<int, Minifigure>, goal: map<int, Minifigure>, r: map<int, Minifigure>,
                          k: int, changes: bool)
    requires goal.Keys == e.Keys
    requires forall j :: j in e ==>
      goal[j] == e[j].(numOfCollectedInventoryItems :=
        e[j].numOfCollectedInventoryItems + (if j == k && changes then 1 else 0))
    requires r == if changes && k in e
      then e[k := e[k].(numOfCollectedInventoryItems := e[k].numOfCollectedInventoryItems + 1)]
      else e
    ensures r == goal
  {
    assert r.Keys == goal.Keys;
    forall j | j in r ensures r[j] == goal[j] { }
  }

  /** The counter of the marked closed form grows by one for the minifigure of `x` when `x`
      changes, and by nothing elsewhere. */
  lemma MarkRowsCounterGrows(db: Db, d: set<int>, x: int)
    requires x in db.items
    ensures var e := MarkRows(db, d);
      var goal := MarkRows(db, d + {x});
      var changes := x !in d && !db.items[x].collected;
      && goal.minifigs.Keys == db.minifigs.Keys == e.minifigs.Keys
      && forall j :: j in db.minifigs ==>
           goal.minifigs[j]
             == e.minifigs[j].(numOfCollectedInventoryItems :=
                  e.minifigs[j].numOfCollectedInventoryItems
                  + (if j == db.items[x].minifigureId && changes then 1 else 0))
  {
    forall j | j in db.minifigs
      ensures MarkRows(db, d + {x}).minifigs[j]
           == MarkRows(db, d).minifigs[j].(numOfCollectedInventoryItems :=
                MarkRows(db, d).minifigs[j].numOfCollectedInventoryItems
                + (if j == db.items[x].minifigureId && x !in d && !db.items[x].collected then 1 else 0))
    {
      ChangedRowsGrow(db.items, j, d, x);
    }
  }

  /** The minifigure table after one item write with its counter rule. */
  lemma WriteItemCollectedMinifigs(db: Db, x: int)
    requires x in db.items
    ensures var r := WriteItemCollected(db, x, true);
      var k := db.items[x].minifigureId;
      r.minifigs
        == if !db.items[x].collected && k in db.minifigs
           then db.minifigs[k := db.minifigs[k].(numOfCollectedInventoryItems := db.minifigs[k].numOfCollectedInventoryItems + 1)]
           else db.minifigs
  {
  }

  /** Adding row `x` to the marked rows adds it to the changed rows of its minifigure when
      it was not yet marked nor collected, and changes nothing else. */
  lemma ChangedRowsGrow(items: map<int, InventoryItem>, j: int, d: set<int>, x: int)
    requires x in items
    ensures var changes := x !in d && !items[x].collected && items[x].minifigureId == j;
      && (changes ==> x !in ChangedRows(items, j, d, true))
      && ChangedRows(items, j, d + {x}, true)
         == if changes then ChangedRows(items, j, d, true) + {x} else ChangedRows(items, j, d, true)
  {
  }

  /** The pass writes only `collected` of items and the counters: patch columns, flags,
      keys and series stay, so the matched rows stay the same. */
  lemma MarkRowsFrame(db: Db, rows: set<int>, ids: set<int>)
    ensures var r := MarkRows(db, rows);
      && r.series == db.series
      && r.minifigs.Keys == db.minifigs.Keys && r.items.Keys == db.items.Keys
      && (forall k :: k in db.minifigs ==>
            MinifigurePatchOf(r.minifigs[k]) == MinifigurePatchOf(db.minifigs[k])
            && r.minifigs[k] == db.minifigs[k].(numOfCollectedInventoryItems := r.minifigs[k].numOfCollectedInventoryItems))
      && (forall i :: i in db.items ==> ItemPatchOf(r.items[i]) == ItemPatchOf(db.items[i]))
      && (forall i :: i in db.items && i !in rows ==> r.items[i] == db.items[i])
      && EligibleRows(r, ids) == EligibleRows(db, ids)
  {
  }

  /** Marking rows that are already collected changes nothing. */
  lemma MarkRowsIdle(db: Db, rows: set<int>)
    requires forall id :: id in rows && id in db.items ==> db.items[id].collected
    ensures MarkRows(db, rows) == db
  {
    var r := MarkRows(db, rows);
    forall k | k in db.minifigs ensures ChangedRows(db.items, k, rows, true) == {} {
      forall id | id in ChangedRows(db.items, k, rows, true) ensures false { }
    }
    forall id | id in db.items ensures r.items[id] == db.items[id] {
      if id in rows {
        assert db.items[id].collected;
      }
    }
    assert r.items == db.items;
    assert r.minifigs == db.minifigs;
  }

  /** Each minifigure gains exactly the marked items among its own as collected items, and
      the counter rule keeps counters consistent. */
  lemma MarkRowsEffect(db: Db, rows: set<int>)
    ensures var r := MarkRows(db, rows);
      && (forall k :: CollectedItemsOf(r.items, k)
                      == CollectedItemsOf(db.items, k) + (rows * ItemsOf(db.items, k)))
      && (CounterConsistent(db) ==> CounterConsistent(r))
  {
    var r := MarkRows(db, rows);
    forall k ensures CollectedItemsOf(r.items, k) == CollectedItemsOf(db.items, k) + (rows * ItemsOf(db.items, k)) {
      MarkRowsCollectedAt(db, rows, k);
    }
    if CounterConsistent(db) {
      MarkRowsKeepsCounter(db, rows);
    }
  }

  lemma MarkRowsKeepsCounter(db: Db, rows: set<int>)
    requires CounterConsistent(db)
    ensures CounterConsistent(MarkRows(db, rows))
  {
    var r := MarkRows(db, rows);
    forall k | k in r.minifigs
      ensures r.minifigs[k].numOfCollectedInventoryItems == |CollectedItemsOf(r.items, k)|
    {
      MarkRowsCollectedAt(db, rows, k);
    }
  }

  /** The collected items of minifigure `k` after the pass: the ones before and, disjoint
      from them, the rows that changed. */
  lemma MarkRowsCollectedAt(db: Db, rows: set<int>, k: int)
    ensures var before := CollectedItemsOf(db.items, k);
      var ch := ChangedRows(db.items, k, rows, true);
      && CollectedItemsOf(MarkRows(db, rows).items, k) == before + ch
      && before * ch == {}
      && before + ch == before + (rows * ItemsOf(db.items, k))
  {
  }

  /** Two passes in a row mark the union of their rows, whatever the second pass finds
      already collected. */
  lemma MarkRowsCompose(db: Db, r1: set<int>, r2: set<int>)
    ensures MarkRows(MarkRows(db, r1), r2) == MarkRows(db, r1 + r2)
  {
    MarkRowsComposeMinifigs(db, r1, r2);
    MarkRowsComposeItems(db, r1, r2);
  }

  lemma MarkRowsComposeItems(db: Db, r1: set<int>, r2: set<int>)
    ensures MarkRows(MarkRows(db, r1), r2).items == MarkRows(db, r1 + r2).items
  {
  }

  lemma MarkRowsComposeMinifigs(db: Db, r1: set<int>, r2: set<int>)
    ensures MarkRows(MarkRows(db, r1), r2).minifigs == MarkRows(db, r1 + r2).minifigs
  {
    var lhs := MarkRows(MarkRows(db, r1), r2).minifigs;
    var rhs := MarkRows(db, r1 + r2).minifigs;
    MarkRowsKeys(db, r1);
    MarkRowsKeys(MarkRows(db, r1), r2);
    MarkRowsKeys(db, r1 + r2);
    forall k | k in db.minifigs
      ensures lhs[k] == rhs[k]
    {
      MarkRowsComposeAt(db, r1, r2, k);
    }
    SameRows(lhs, rhs);
  }

  lemma MarkRowsKeys(db: Db, rows: set<int>)
    ensures MarkRows(db, rows).minifigs.Keys == db.minifigs.Keys
  {
  }

  /** Two tables with the same ids and the same row at each id are equal. */
  lemma SameRows(a: map<int, Minifigure>, b: map<int, Minifigure>)
    requires a.Keys == b.Keys && forall k :: k in a ==> a[k] == b[k]
    ensures a == b
  {
    forall k | k in a ensures k in b && a[k] == b[k] { }
    forall k | k in b ensures k in a { }
  }

  lemma MarkRowsComposeAt(db: Db, r1: set<int>, r2: set<int>, k: int)
    requires k in db.minifigs
    ensures k in MarkRows(MarkRows(db, r1), r2).minifigs
    ensures MarkRows(MarkRows(db, r1), r2).minifigs[k] == MarkRows(db, r1 + r2).minifigs[k]
  {
    var e := MarkRows(db, r1);
    MarkRowsCounter(db, r1, k);
    MarkRowsCounter(e, r2, k);
    MarkRowsCounter(db, r1 + r2, k);
    ChangedRowsUnion(db, r1, r2, k);
  }

  /** The pass moves the counter of minifigure `k` by the number of its items it changes. */
  lemma MarkRowsCounter(db: Db, rows: set<int>, k: int)
    requires k in db.minifigs
    ensures k in MarkRows(db, rows).minifigs
    ensures MarkRows(db, rows).minifigs[k] == db.minifigs[k].(numOfCollectedInventoryItems :=
      db.minifigs[k].numOfCollectedInventoryItems + |ChangedRows(db.items, k, rows, true)|)
  {
  }

  /** The rows the second pass changes are those of the union the first did not. */
  lemma ChangedRowsUnion(db: Db, r1: set<int>, r2: set<int>, k: int)
    ensures |ChangedRows(db.items, k, r1, true)| + |ChangedRows(MarkRows(db, r1).items, k, r2, true)|
         == |ChangedRows(db.items, k, r1 + r2, true)|
  {
    var a := ChangedRows(db.items, k, r1, true);
    var b := ChangedRows(MarkRows(db, r1).items, k, r2, true);
    assert ChangedRows(db.items, k, r1 + r2, true) == a + b;
    assert a * b == {};
  }

  // ------------------------------------------------ chunking

  /** The chunks laid end to end. */
  function Flatten(chunks: seq<seq<int>>): seq<int>
  {
    if chunks == [] then [] else chunks[0] + Flatten(chunks[1..])
  }

  /** Kotlin's `chunked(size)`: consecutive pieces of `size` ids, the last one possibly
      shorter, none empty. */
  function Chunked(xs: seq<int>, size: nat): (chunks: seq<seq<int>>)
    requires size > 0
    ensures Flatten(chunks) == xs
    ensures forall i :: 0 <= i < |chunks| ==> 0 < |chunks[i]| <= size
    ensures forall i :: 0 <= i < |chunks| - 1 ==> |chunks[i]| == size
    decreases |xs|
  {
    if xs == [] then []
    else if |xs| <= size then
      assert Flatten([xs]) == xs + Flatten([]);
      [xs]
    else
      var rest := Chunked(xs[size..], size);
      assert ([xs[..size]] + rest)[1..] == rest;
      assert xs[..size] + xs[size..] == xs;
      [xs[..size]] + rest
  }

  /** Flattening distributes over appending one chunk. */
  lemma {:induction false} FlattenSnoc(chunks: seq<seq<int>>, c: seq<int>)
    ensures Flatten(chunks + [c]) == Flatten(chunks) + c
  {
    if chunks != [] {
      assert (chunks + [c])[1..] == chunks[1..] + [c];
      FlattenSnoc(chunks[1..], c);
    } else {
      assert Flatten([c]) == c + Flatten([]);
    }
  }

  /** 1500 ids make two UPDATEs, of 999 and 501 ids. */
  lemma ChunkedAtBindLimit(xs: seq<int>)
    requires |xs| == 1500
    ensures var cs := Chunked(xs, ITEM_IDS_CHUNK_SIZE);
      |cs| == 2 && cs[0] == xs[..999] && cs[1] == xs[999..]
  {
  }

  // ------------------------------------------------ upsertAll

  /** Some minifigure patch names a series absent after the series phase. */
  predicate MissingSeries(series: map<int, Series>, ms: seq<PartialMinifigure>)
  {
    exists i :: 0 <= i < |ms| && ms[i].seriesId !in series
  }

  /** Some item patch names a minifigure absent after the minifigure phase. */
  predicate MissingMinifigure(minifigs: map<int, Minifigure>, ips: seq<PartialInventoryItem>)
  {
    exists i :: 0 <= i < |ips| && ips[i].minifigureId !in minifigs
  }

  /** The three tables after the three upserts, before the collected pass. */
  function Upserted(db: Db, ss: seq<PartialSeries>, ms: seq<PartialMinifigure>,
                    ips: seq<PartialInventoryItem>): Db
  {
    Db(UpsertSeriesList(db.series, ss), UpsertMinifigureList(db.minifigs, ms), UpsertItemList(db.items, ips))
  }

  /** upsertAll: the three upserts in order, then (for a non-empty item list) the collected
      pass. A patch naming a missing parent violates an immediate foreign key, and the
      transaction rolls back. Parents are checked against the table as the earlier phase
      left it; later phases never remove a row, so that is the table the failing statement
      sees. */
  function UpsertAll(db: Db, ss: seq<PartialSeries>, ms: seq<PartialMinifigure>,
                     ips: seq<PartialInventoryItem>): Outcome
  {
    var u := Upserted(db, ss, ms, ips);
    if MissingSeries(u.series, ms) then RolledBack
    else if MissingMinifigure(u.minifigs, ips) then RolledBack
    else
      var ids := ItemKeys(ips);
      Committed(if |ids| > 0 then ApplyCollectedStatus(u, ids) else u)
  }
}
