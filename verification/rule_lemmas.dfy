/** What the update rules guarantee: the counter rule keeps "counter = number of collected
    items", hiding resets a minifigure, collecting fills its inventory, and the cascade of
    a hide equals the closed form `Rules.HideRows`. */
module RuleLemmas {
  import opened Records
  import opened Catalog
  import opened Rules

  // ------------------------------------------------ the counter rule

  /** One more row of an item UPDATE: writing item `x` after the rows `d` gives the end state
      of the UPDATE over `d + {x}`. */
  lemma SetItemRowsStep(db: Db, mid: int, d: set<int>, x: int, v: bool)
    requires x in ItemsOf(db.items, mid) && x !in d
    ensures x in SetItemRows(db, mid, d, v).items
    ensures WriteItemCollected(SetItemRows(db, mid, d, v), x, v) == SetItemRows(db, mid, d + {x}, v)
  {
    SetItemRowsStepItems(db, mid, d, x, v);
    SetItemRowsStepMinifigs(db, mid, d, x, v);
  }

  lemma SetItemRowsStepItems(db: Db, mid: int, d: set<int>, x: int, v: bool)
    requires x in ItemsOf(db.items, mid) && x !in d
    ensures x in SetItemRows(db, mid, d, v).items
    ensures WriteItemCollected(SetItemRows(db, mid, d, v), x, v).items == SetItemRows(db, mid, d + {x}, v).items
  {
    var e := SetItemRows(db, mid, d, v);
    var goal := SetItemRows(db, mid, d + {x}, v);
    var r := WriteItemCollected(e, x, v);
    forall id | id in r.items ensures id in goal.items && r.items[id] == goal.items[id] {
    }
  }

  lemma SetItemRowsStepMinifigs(db: Db, mid: int, d: set<int>, x: int, v: bool)
    requires x in ItemsOf(db.items, mid) && x !in d
    ensures x in SetItemRows(db, mid, d, v).items
    ensures WriteItemCollected(SetItemRows(db, mid, d, v), x, v).minifigs == SetItemRows(db, mid, d + {x}, v).minifigs
  {
    var e := SetItemRows(db, mid, d, v);
    assert e.items[x] == db.items[x];
    ChangedRowsGrow(db.items, mid, d, x, v);
    var before := |ChangedRows(db.items, mid, d, v)|;
    var after := |ChangedRows(db.items, mid, d + {x}, v)|;
    if mid in db.minifigs && db.items[x].collected != v {
      assert Signed(v, before) + Signed(v, 1) == Signed(v, after);
    }
  }

  /** One more row in the UPDATE adds that row to the changed ones exactly when its value
      differs. */
  lemma ChangedRowsGrow(items: map<int, InventoryItem>, mid: int, d: set<int>, x: int, v: bool)
    requires x in items && items[x].minifigureId == mid && x !in d
    ensures |ChangedRows(items, mid, d + {x}, v)|
            == |ChangedRows(items, mid, d, v)| + if items[x].collected != v then 1 else 0
  {
    var before := ChangedRows(items, mid, d, v);
    var after := ChangedRows(items, mid, d + {x}, v);
    if items[x].collected != v {
      assert after == before + {x};
    } else {
      assert after == before;
    }
  }

  /** The counter rule keeps every counter equal to the number of collected items. */
  lemma SetItemRowsConsistent(db: Db, mid: int, rows: set<int>, v: bool)
    requires CounterConsistent(db)
    ensures CounterConsistent(SetItemRows(db, mid, rows, v))
  {
    var r := SetItemRows(db, mid, rows, v);
    forall k | k in r.minifigs
      ensures r.minifigs[k].numOfCollectedInventoryItems == |CollectedItemsOf(r.items, k)|
    {
      SetItemRowsCollectedAt(db, mid, rows, v, k);
    }
  }

  /** The collected items of minifigure `k` after an item UPDATE on the rows of `mid`: those
      of another minifigure are kept; those of `mid` gain or lose exactly the changed rows. */
  lemma SetItemRowsCollectedAt(db: Db, mid: int, rows: set<int>, v: bool, k: int)
    ensures var before := CollectedItemsOf(db.items, k);
      var after := CollectedItemsOf(SetItemRows(db, mid, rows, v).items, k);
      var ch := ChangedRows(db.items, mid, rows, v);
      && (k != mid ==> after == before)
      && (k == mid && v ==> after == before + ch && before * ch == {})
      && (k == mid && !v ==> before == after + ch && after * ch == {})
  {
    var before := CollectedItemsOf(db.items, k);
    var after := CollectedItemsOf(SetItemRows(db, mid, rows, v).items, k);
    var ch := ChangedRows(db.items, mid, rows, v);
    if k != mid {
      forall id ensures id in after <==> id in before {
      }
    } else if v {
      forall id ensures id in after <==> id in before + ch {
      }
      assert before * ch == {} by {
        forall id | id in before * ch ensures false {
        }
      }
    } else {
      forall id ensures id in before <==> id in after + ch {
      }
      assert after * ch == {} by {
        forall id | id in after * ch ensures false {
        }
      }
    }
  }

  /** The single-row form of the counter rule keeps the counters consistent. */
  lemma WriteItemCollectedConsistent(db: Db, id: int, v: bool)
    requires id in db.items && CounterConsistent(db)
    ensures CounterConsistent(WriteItemCollected(db, id, v))
  {
    var mid := db.items[id].minifigureId;
    assert id in ItemsOf(db.items, mid);
    SetItemRowsStep(db, mid, {}, id, v);
    var e := SetItemRows(db, mid, {}, v);
    assert ChangedRows(db.items, mid, {}, v) == {};
    assert e.items == db.items;
    assert e == db;
    SetItemRowsConsistent(db, mid, {id}, v);
  }

  /** After `SetItemsCollected(db, mid, v)` the collected items of `mid` are all of them or
      none, and under consistent counters its counter says so. */
  lemma SetItemsCollectedEffect(db: Db, mid: int, v: bool)
    ensures var r := SetItemsCollected(db, mid, v);
      && ItemsOf(r.items, mid) == ItemsOf(db.items, mid)
      && CollectedItemsOf(r.items, mid) == (if v then ItemsOf(db.items, mid) else {})
      && (CounterConsistent(db) ==> CounterConsistent(r))
      && (CounterConsistent(db) && mid in db.minifigs ==>
            r.minifigs[mid].numOfCollectedInventoryItems == (if v then |ItemsOf(db.items, mid)| else 0))
  {
    var r := SetItemsCollected(db, mid, v);
    assert ItemsOf(r.items, mid) == ItemsOf(db.items, mid);
    assert CollectedItemsOf(r.items, mid) == (if v then ItemsOf(db.items, mid) else {});
    if CounterConsistent(db) {
      SetItemRowsConsistent(db, mid, ItemsOf(db.items, mid), v);
    }
  }

  /** A second identical item UPDATE changes nothing. */
  lemma SetItemsCollectedIdempotent(db: Db, mid: int, v: bool)
    ensures SetItemsCollected(SetItemsCollected(db, mid, v), mid, v) == SetItemsCollected(db, mid, v)
  {
    var r := SetItemsCollected(db, mid, v);
    var r2 := SetItemsCollected(r, mid, v);
    assert ItemsOf(r.items, mid) == ItemsOf(db.items, mid);
    assert ChangedRows(r.items, mid, ItemsOf(r.items, mid), v) == {};
    assert r2.items == r.items;
    assert r2.minifigs == r.minifigs;
  }

  // ------------------------------------------------ the hide rule

  /** Hiding nothing changes nothing. */
  lemma HideRowsEmpty(db: Db, sid: int)
    ensures HideRows(db, sid, {}) == db
  {
    var r := HideRows(db, sid, {});
    forall id | id in db.items ensures CollectedItemsOf(db.items, id) == CollectedItemsOf(db.items, id) { }
    assert r.minifigs == db.minifigs;
    assert r.items == db.items;
  }

  /** The cascade of a hide write on a visible minifigure: the series counts one more hidden
      minifigure, the row is reset, and its items are cleared (the reset write's own clearing
      rule, when it fires, clears the same items first). */
  lemma HideCascade(db: Db, x: int)
    requires x in db.minifigs && !db.minifigs[x].hidden
    ensures var m := db.minifigs[x];
      WriteMinifigure(db, x, m.(hidden := true))
        == SetItemsCollected(Db(BumpHidden(db, m.seriesId).series,
                                db.minifigs[x := ResetFlags(m).(hidden := true)], db.items), x, false)
  {
    HideCascadeUnfold(db, x);
    HideCascadeTail(db, x);
  }

  /** The reset write that follows, with its items cleared, lands on the bumped series, the
      reset and hidden row, and cleared items. */
  lemma HideCascadeTail(db: Db, x: int)
    requires x in db.minifigs && !db.minifigs[x].hidden
    ensures var m := db.minifigs[x];
      var mh := m.(hidden := true);
      var db2 := BumpHidden(db.(minifigs := db.minifigs[x := mh]), m.seriesId);
      && x in db2.minifigs && db2.minifigs[x] == mh
      && SetItemsCollected(WriteMinifigure(db2, x, ResetFlags(mh)), x, false)
         == SetItemsCollected(Db(BumpHidden(db, m.seriesId).series,
                                 db.minifigs[x := ResetFlags(m).(hidden := true)], db.items), x, false)
  {
    var m := db.minifigs[x];
    var mh := m.(hidden := true);
    var db2 := BumpHidden(db.(minifigs := db.minifigs[x := mh]), m.seriesId);
    BumpHiddenFrame(db.(minifigs := db.minifigs[x := mh]), db, m.seriesId);
    HideCascadeReset(db2, x);
    var d3 := db2.(minifigs := db2.minifigs[x := ResetFlags(mh)]);
    var target := Db(BumpHidden(db, m.seriesId).series, db.minifigs[x := ResetFlags(m).(hidden := true)], db.items);
    assert d3.minifigs == target.minifigs;
    assert d3 == target;
  }

  /** The hide counter bump touches the series table only, and depends on nothing else. */
  lemma BumpHiddenFrame(a: Db, b: Db, sid: int)
    requires a.series == b.series
    ensures BumpHidden(a, sid).series == BumpHidden(b, sid).series
    ensures BumpHidden(a, sid).minifigs == a.minifigs && BumpHidden(a, sid).items == a.items
  {
  }

  /** A hide write fires the hide rule, whose reset write is followed by clearing the items. */
  lemma HideCascadeUnfold(db: Db, x: int)
    requires x in db.minifigs && !db.minifigs[x].hidden
    ensures var mh := db.minifigs[x].(hidden := true);
      var db2 := BumpHidden(db.(minifigs := db.minifigs[x := mh]), mh.seriesId);
      && x in db2.minifigs && db2.minifigs[x] == mh
      && WriteMinifigure(db, x, mh) == SetItemsCollected(WriteMinifigure(db2, x, ResetFlags(mh)), x, false)
  {
  }

  /** The hide rule's reset write over a hidden row: whatever rule it fires, clearing the
      row's items afterwards leaves the same state as clearing them after the bare write. */
  lemma HideCascadeReset(d: Db, x: int)
    requires x in d.minifigs && d.minifigs[x].hidden
    ensures var mh := d.minifigs[x];
      SetItemsCollected(WriteMinifigure(d, x, ResetFlags(mh)), x, false)
        == SetItemsCollected(d.(minifigs := d.minifigs[x := ResetFlags(mh)]), x, false)
  {
    var mh := d.minifigs[x];
    var d3 := d.(minifigs := d.minifigs[x := ResetFlags(mh)]);
    if ClearFires(mh, ResetFlags(mh)) {
      assert WriteMinifigure(d, x, ResetFlags(mh)) == SetItemsCollected(d3, x, false);
      SetItemsCollectedIdempotent(d3, x, false);
    } else {
      assert WriteMinifigure(d, x, ResetFlags(mh)) == d3;
    }
  }

  /** The closed form grows by one row exactly as the cascade of that row's hide write. */
  lemma HideRowsGrow(db: Db, sid: int, d: set<int>, x: int)
    requires d <= VisibleOf(db.minifigs, sid)
    requires x in VisibleOf(db.minifigs, sid) && x !in d
    ensures var e := HideRows(db, sid, d);
      && x in e.minifigs && e.minifigs[x] == db.minifigs[x]
      && HideRows(db, sid, d + {x})
         == SetItemsCollected(Db(BumpHidden(e, sid).series,
                                 e.minifigs[x := ResetFlags(db.minifigs[x]).(hidden := true)], e.items), x, false)
  {
    var e := HideRows(db, sid, d);
    var m := db.minifigs[x];
    var db3 := Db(BumpHidden(e, sid).series, e.minifigs[x := ResetFlags(m).(hidden := true)], e.items);
    var r := SetItemsCollected(db3, x, false);
    var goal := HideRows(db, sid, d + {x});
    assert |d + {x}| == |d| + 1;
    assert r.series == goal.series;
    HideRowsGrowItems(db, sid, d, x);
    HideRowsGrowMinifigs(db, sid, d, x);
  }

  lemma HideRowsGrowItems(db: Db, sid: int, d: set<int>, x: int)
    requires d <= VisibleOf(db.minifigs, sid)
    requires x in VisibleOf(db.minifigs, sid) && x !in d
    ensures var e := HideRows(db, sid, d);
      SetItemsCollected(Db(BumpHidden(e, sid).series,
                           e.minifigs[x := ResetFlags(db.minifigs[x]).(hidden := true)], e.items), x, false).items
      == HideRows(db, sid, d + {x}).items
  {
  }

  lemma HideRowsGrowMinifigs(db: Db, sid: int, d: set<int>, x: int)
    requires d <= VisibleOf(db.minifigs, sid)
    requires x in VisibleOf(db.minifigs, sid) && x !in d
    ensures var e := HideRows(db, sid, d);
      SetItemsCollected(Db(BumpHidden(e, sid).series,
                           e.minifigs[x := ResetFlags(db.minifigs[x]).(hidden := true)], e.items), x, false).minifigs
      == HideRows(db, sid, d + {x}).minifigs
  {
    var e := HideRows(db, sid, d);
    var db3 := Db(BumpHidden(e, sid).series, e.minifigs[x := ResetFlags(db.minifigs[x]).(hidden := true)], e.items);
    assert CollectedItemsOf(e.items, x) == CollectedItemsOf(db.items, x);
    assert ChangedRows(db3.items, x, ItemsOf(db3.items, x), false) == CollectedItemsOf(db.items, x);
  }

  /** One more row of the hide UPDATE: the hide write on `x` after the rows `d` gives the
      closed form for `d + {x}`. */
  lemma HideStep(db: Db, sid: int, d: set<int>, x: int)
    requires d <= VisibleOf(db.minifigs, sid)
    requires x in VisibleOf(db.minifigs, sid) && x !in d
    ensures var e := HideRows(db, sid, d);
      && x in e.minifigs && e.minifigs[x] == db.minifigs[x]
      && WriteMinifigure(e, x, e.minifigs[x].(hidden := true)) == HideRows(db, sid, d + {x})
  {
    var e := HideRows(db, sid, d);
    HideRowsGrow(db, sid, d, x);
    HideCascade(e, x);
    assert BumpHidden(e, sid).series == BumpHidden(e, e.minifigs[x].seriesId).series;
  }

  // ------------------------------------------------ what a minifigure write touches

  /** The four user flags of two minifigure rows agree. */
  predicate SameFlags(a: Minifigure, b: Minifigure)
  {
    a.collected == b.collected && a.wishListed == b.wishListed && a.favorite == b.favorite
    && a.hidden == b.hidden
  }

  /** Between `db` and `r` only minifigure `id`, its items' `collected` and the series
      table may have changed: keys, other minifigures, other items and every item's patch
      columns are kept. */
  ghost predicate OnlyTouches(db: Db, r: Db, id: int)
  {
    && r.minifigs.Keys == db.minifigs.Keys && r.items.Keys == db.items.Keys
    && r.series.Keys == db.series.Keys
    && (forall k :: k in db.minifigs && k != id ==> r.minifigs[k] == db.minifigs[k])
    && (forall i :: i in db.items && db.items[i].minifigureId != id ==> r.items[i] == db.items[i])
    && (forall i :: i in db.items ==> ItemPatchOf(r.items[i]) == ItemPatchOf(db.items[i]))
  }

  lemma OnlyTouchesTrans(a: Db, b: Db, c: Db, id: int)
    requires OnlyTouches(a, b, id) && OnlyTouches(b, c, id)
    ensures OnlyTouches(a, c, id)
  {
    forall i | i in a.items && a.items[i].minifigureId != id ensures c.items[i] == a.items[i] {
      assert ItemPatchOf(b.items[i]) == ItemPatchOf(a.items[i]);
    }
  }

  lemma SetItemsCollectedTouches(db: Db, id: int, v: bool)
    ensures OnlyTouches(db, SetItemsCollected(db, id, v), id)
    ensures SetItemsCollected(db, id, v).series == db.series
    ensures id in db.minifigs ==>
      SameFlags(SetItemsCollected(db, id, v).minifigs[id], db.minifigs[id])
      && MinifigurePatchOf(SetItemsCollected(db, id, v).minifigs[id]) == MinifigurePatchOf(db.minifigs[id])
  {
  }

  /** A minifigure write and its rules touch no other minifigure, no item of another
      minifigure, no item's patch columns, and the series table only when the hide rule
      fires; the written row ends with the written flags (reset when hidden). */
  lemma {:induction false} WriteMinifigureFrame(db: Db, id: int, m: Minifigure)
    requires id in db.minifigs && SingleRuleWrite(db.minifigs[id], m)
    ensures var r := WriteMinifigure(db, id, m);
      && OnlyTouches(db, r, id)
      && (!HideFires(db.minifigs[id], m) ==> r.series == db.series)
      && SameFlags(r.minifigs[id], if HideFires(db.minifigs[id], m) then ResetFlags(m) else m)
      && MinifigurePatchOf(r.minifigs[id]) == MinifigurePatchOf(m)
    decreases if HideFires(db.minifigs[id], m) then 1 else 0
  {
    var before := db.minifigs[id];
    var db1 := db.(minifigs := db.minifigs[id := m]);
    assert OnlyTouches(db, db1, id);
    if HideFires(before, m) {
      var db2 := BumpHidden(db1, m.seriesId);
      assert OnlyTouches(db1, db2, id);
      OnlyTouchesTrans(db, db1, db2, id);
      WriteMinifigureFrame(db2, id, ResetFlags(m));
      var db3 := WriteMinifigure(db2, id, ResetFlags(m));
      OnlyTouchesTrans(db, db2, db3, id);
      SetItemsCollectedTouches(db3, id, false);
      OnlyTouchesTrans(db, db3, SetItemsCollected(db3, id, false), id);
    } else if ClearFires(before, m) {
      SetItemsCollectedTouches(db1, id, false);
      OnlyTouchesTrans(db, db1, SetItemsCollected(db1, id, false), id);
    } else if FillFires(before, m) {
      SetItemsCollectedTouches(db1, id, true);
      OnlyTouchesTrans(db, db1, SetItemsCollected(db1, id, true), id);
    }
  }

  /** A minifigure write that keeps the row's counter keeps every counter consistent. */
  lemma {:induction false} WriteMinifigureConsistent(db: Db, id: int, m: Minifigure)
    requires id in db.minifigs && SingleRuleWrite(db.minifigs[id], m)
    requires m.numOfCollectedInventoryItems == db.minifigs[id].numOfCollectedInventoryItems
    requires CounterConsistent(db)
    ensures CounterConsistent(WriteMinifigure(db, id, m))
    decreases if HideFires(db.minifigs[id], m) then 1 else 0
  {
    var before := db.minifigs[id];
    var db1 := db.(minifigs := db.minifigs[id := m]);
    assert CounterConsistent(db1);
    if HideFires(before, m) {
      var db2 := BumpHidden(db1, m.seriesId);
      assert CounterConsistent(db2);
      WriteMinifigureConsistent(db2, id, ResetFlags(m));
      SetItemsCollectedEffect(WriteMinifigure(db2, id, ResetFlags(m)), id, false);
    } else if ClearFires(before, m) {
      SetItemsCollectedEffect(db1, id, false);
    } else if FillFires(before, m) {
      SetItemsCollectedEffect(db1, id, true);
    }
  }

  /** A write that changes neither `hidden` nor `collected` runs no rule. */
  lemma NoRuleWithoutGuard(db: Db, id: int, m: Minifigure)
    requires id in db.minifigs
    requires m.hidden == db.minifigs[id].hidden && m.collected == db.minifigs[id].collected
    ensures WriteMinifigure(db, id, m) == db.(minifigs := db.minifigs[id := m])
  {
  }

  /** A write that sets `hidden` to false (leaving `collected`) runs no rule either: the hide
      rule does not fire, and nothing shown compensates the series' hidden counter. */
  lemma UnhideRunsNoRule(db: Db, id: int)
    requires id in db.minifigs
    ensures WriteMinifigure(db, id, db.minifigs[id].(hidden := false))
         == db.(minifigs := db.minifigs[id := db.minifigs[id].(hidden := false)])
  {
  }

  // ------------------------------------------------ effect of the hide rule

  /** Hiding the rows `h` of series `sid`: the series counts `|h|` more hidden minifigures,
      each row of `h` is hidden with its flags reset and its items uncollected, nothing else
      changes, and counters stay consistent (those of `h` become 0). */
  lemma HideRowsEffect(db: Db, sid: int, h: set<int>)
    requires h <= VisibleOf(db.minifigs, sid)
    ensures var r := HideRows(db, sid, h);
      && r.series.Keys == db.series.Keys && r.minifigs.Keys == db.minifigs.Keys
      && r.items.Keys == db.items.Keys
      && (sid in db.series ==>
            r.series[sid].numOfMinifigsHidden == db.series[sid].numOfMinifigsHidden + |h|
            && SeriesPatchOf(r.series[sid]) == SeriesPatchOf(db.series[sid]))
      && (forall s :: s in db.series && s != sid ==> r.series[s] == db.series[s])
      && (forall k :: k in h ==>
            && r.minifigs[k].hidden && !r.minifigs[k].collected && !r.minifigs[k].wishListed
            && !r.minifigs[k].favorite
            && MinifigurePatchOf(r.minifigs[k]) == MinifigurePatchOf(db.minifigs[k])
            && CollectedItemsOf(r.items, k) == {})
      && (forall k :: k in db.minifigs && k !in h ==> r.minifigs[k] == db.minifigs[k])
      && (forall i :: i in db.items && db.items[i].minifigureId !in h ==> r.items[i] == db.items[i])
      && (forall i :: i in db.items ==> ItemPatchOf(r.items[i]) == ItemPatchOf(db.items[i]))
      && (CounterConsistent(db) ==>
            CounterConsistent(r) && forall k :: k in h ==> r.minifigs[k].numOfCollectedInventoryItems == 0)
  {
    var r := HideRows(db, sid, h);
    forall k | k in h ensures CollectedItemsOf(r.items, k) == {} { }
    if CounterConsistent(db) {
      forall k | k in r.minifigs
        ensures r.minifigs[k].numOfCollectedInventoryItems == |CollectedItemsOf(r.items, k)|
      {
        if k !in h {
          assert CollectedItemsOf(r.items, k) == CollectedItemsOf(db.items, k);
        }
      }
    }
  }

  /** The hide write on one visible minifigure ends in the closed form for that one row. */
  lemma HideWriteIsHideRows(db: Db, x: int)
    requires x in db.minifigs && !db.minifigs[x].hidden
    ensures WriteMinifigure(db, x, db.minifigs[x].(hidden := true)) == HideRows(db, db.minifigs[x].seriesId, {x})
  {
    var sid := db.minifigs[x].seriesId;
    HideRowsEmpty(db, sid);
    HideStep(db, sid, {}, x);
  }

  // ------------------------------------------------ effect of the two item rules

  /** Collecting a minifigure collects all its items; under consistent counters its counter
      becomes its number of items. Nothing else changes beyond the written row. */
  lemma CollectRuleEffect(db: Db, id: int, m: Minifigure)
    requires id in db.minifigs && !db.minifigs[id].collected && m.collected
    requires m.hidden == db.minifigs[id].hidden
    ensures var r := WriteMinifigure(db, id, m);
      && CollectedItemsOf(r.items, id) == ItemsOf(db.items, id)
      && ((CounterConsistent(db) && m.numOfCollectedInventoryItems == db.minifigs[id].numOfCollectedInventoryItems)
            ==> r.minifigs[id].numOfCollectedInventoryItems == |ItemsOf(db.items, id)|)
  {
    var db1 := db.(minifigs := db.minifigs[id := m]);
    SetItemsCollectedEffect(db1, id, true);
    if CounterConsistent(db) && m.numOfCollectedInventoryItems == db.minifigs[id].numOfCollectedInventoryItems {
      assert CounterConsistent(db1);
    }
  }

  /** Uncollecting a minifigure clears all its items when its counter equals its inventory
      size at that moment, and otherwise leaves every item as it was. */
  lemma UncollectRuleEffect(db: Db, id: int, m: Minifigure)
    requires id in db.minifigs && db.minifigs[id].collected && !m.collected
    requires m.hidden == db.minifigs[id].hidden
    ensures var r := WriteMinifigure(db, id, m);
      && (m.numOfCollectedInventoryItems == m.inventorySize ==> CollectedItemsOf(r.items, id) == {})
      && (m.numOfCollectedInventoryItems != m.inventorySize ==>
            r == db.(minifigs := db.minifigs[id := m]))
  {
  }
}
