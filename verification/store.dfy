/** The local catalogue store as an object: its three tables are fields that the
    data-access updates and the four version 4 rules overwrite in place, one primitive
    write at a time. Each method is proved to reach the end state `Rules` and `Merge`
    give, so every property proved about those functions holds of the store. */
module LocalStore {
  import opened Records
  import opened Catalog
  import Rules
  import Merge
  import opened RuleLemmas

  class Store {
    var series: map<int, Series>
    var minifigs: map<int, Minifigure>
    var items: map<int, InventoryItem>

    /** The content of the three tables. */
    function State(): Db
      reads this
    {
      Db(series, minifigs, items)
    }

    /** A store holding `db`. */
    constructor (db: Db)
      ensures State() == db
    {
      series := db.series;
      minifigs := db.minifigs;
      items := db.items;
    }

    // ---------------------------------------------- primitive writes and the rules they fire

    /** Rule updateNumOfCollectedMinifigureInventoryItems, fired by an item of minifigure
        `mid` whose `collected` changed to `v`: the counter moves by one. */
    method CountItemCollected(mid: int, v: bool)
      modifies this
      ensures series == old(series) && items == old(items)
      ensures mid in old(minifigs) ==>
        minifigs == old(minifigs)[mid := old(minifigs)[mid].(numOfCollectedInventoryItems :=
          old(minifigs)[mid].numOfCollectedInventoryItems + Rules.Signed(v, 1))]
      ensures mid !in old(minifigs) ==> minifigs == old(minifigs)
    {
      if mid in minifigs {
        var m := minifigs[mid];
        minifigs := minifigs[mid := m.(numOfCollectedInventoryItems := m.numOfCollectedInventoryItems + Rules.Signed(v, 1))];
      }
    }

    /** The write `collected := v` on item `id`, with the counter rule when it changed. */
    method UpdateItemCollected(id: int, v: bool)
      requires id in items
      modifies this
      ensures State() == Rules.WriteItemCollected(old(State()), id, v)
    {
      var it := items[id];
      items := items[id := it.(collected := v)];
      if it.collected != v {
        CountItemCollected(it.minifigureId, v);
      }
    }

    /** UPDATE MinifigureInventoryItem SET collected = v WHERE minifigureId = mid; the rows
        are written one at a time, in no particular order, each firing the counter rule. */
    method SetItemsCollected(mid: int, v: bool)
      modifies this
      ensures State() == Rules.SetItemsCollected(old(State()), mid, v)
    {
      ghost var db0 := State();
      var rows := ItemsOf(items, mid);
      var todo := rows;
      assert rows - todo == {};
      while |todo| > 0
        invariant todo <= rows
        invariant State() == Rules.SetItemRows(db0, mid, rows - todo, v)
        decreases |todo|
      {
        todo := SetItemRow(db0, mid, rows, todo, v);
      }
      assert rows - todo == rows;
    }

    /** The write of `collected := v` on one more item of `todo`. */
    method SetItemRow(ghost db0: Db, mid: int, ghost rows: set<int>, todo: set<int>, v: bool)
      returns (rest: set<int>)
      requires todo <= rows <= ItemsOf(db0.items, mid) && |todo| > 0
      requires State() == Rules.SetItemRows(db0, mid, rows - todo, v)
      modifies this
      ensures rest <= todo && |rest| < |todo|
      ensures State() == Rules.SetItemRows(db0, mid, rows - rest, v)
    {
      var x := Pick(todo);
      SetItemRowsStep(db0, mid, rows - todo, x, v);
      UpdateItemCollected(x, v);
      rest := todo - {x};
      assert (rows - todo) + {x} == rows - rest;
    }

    /** UPDATE Series SET numOfMinifigsHidden = numOfMinifigsHidden + 1 WHERE id = sid. */
    method BumpHidden(sid: int)
      modifies this
      ensures State() == Rules.BumpHidden(old(State()), sid)
    {
      if sid in series {
        var s := series[sid];
        series := series[sid := s.(numOfMinifigsHidden := s.numOfMinifigsHidden + 1)];
      }
    }

    /** A write of row `m` over minifigure `id`, then the rule its change fires: the hide
        rule (bump the series, reset the flags by a nested write, clear the items), the
        clearing rule or the filling rule. */
    method UpdateMinifigure(id: int, m: Minifigure)
      requires id in minifigs && Rules.SingleRuleWrite(minifigs[id], m)
      modifies this
      ensures State() == Rules.WriteMinifigure(old(State()), id, m)
      decreases if Rules.HideFires(minifigs[id], m) then 1 else 0
    {
      var before := minifigs[id];
      minifigs := minifigs[id := m];
      if Rules.HideFires(before, m) {
        BumpHidden(m.seriesId);
        UpdateMinifigure(id, Rules.ResetFlags(m));
        SetItemsCollected(id, false);
      } else if Rules.ClearFires(before, m) {
        SetItemsCollected(id, false);
      } else if Rules.FillFires(before, m) {
        SetItemsCollected(id, true);
      }
    }

    // ---------------------------------------------- MinifigureDao updates

    /** toggleMinifigureCollectedStateAndResetWishlistedState */
    method ToggleCollected(id: int) returns (rows: nat)
      modifies this
      ensures Rules.Updated(State(), rows) == Rules.ToggleCollected(old(State()), id)
    {
      if id !in minifigs {
        return 0;
      }
      var m := minifigs[id];
      UpdateMinifigure(id, m.(collected := !m.collected, wishListed := false));
      return 1;
    }

    /** toggleMinifigureWishlistedStateAndResetCollectedState */
    method ToggleWishlisted(id: int) returns (rows: nat)
      modifies this
      ensures Rules.Updated(State(), rows) == Rules.ToggleWishlisted(old(State()), id)
    {
      if id !in minifigs {
        return 0;
      }
      var m := minifigs[id];
      UpdateMinifigure(id, m.(wishListed := !m.wishListed, collected := false));
      return 1;
    }

    /** toggleMinifigureFavoriteState */
    method ToggleFavorite(id: int) returns (rows: nat)
      modifies this
      ensures Rules.Updated(State(), rows) == Rules.ToggleFavorite(old(State()), id)
    {
      if id !in minifigs {
        return 0;
      }
      var m := minifigs[id];
      UpdateMinifigure(id, m.(favorite := !m.favorite));
      return 1;
    }

    /** toggleMinifigureHiddenState */
    method ToggleHidden(id: int) returns (rows: nat)
      modifies this
      ensures Rules.Updated(State(), rows) == Rules.ToggleHidden(old(State()), id)
    {
      if id !in minifigs {
        return 0;
      }
      var m := minifigs[id];
      UpdateMinifigure(id, m.(hidden := !m.hidden));
      return 1;
    }

    /** hideSeries: every visible minifigure of the series is written hidden, one row at a
        time, each write firing the hide rule. */
    method HideSeries(sid: int) returns (rows: nat)
      modifies this
      ensures Rules.Updated(State(), rows) == Rules.HideSeries(old(State()), sid)
    {
      var h := VisibleOf(minifigs, sid);
      HideRowsOf(State(), sid, h);
      return |h|;
    }

    /** The writes of hideSeries on the rows `h`. */
    method HideRowsOf(ghost db0: Db, sid: int, h: set<int>)
      requires State() == db0 && h <= VisibleOf(db0.minifigs, sid)
      modifies this
      ensures State() == Rules.HideRows(db0, sid, h)
    {
      var todo := h;
      HideRowsEmpty(db0, sid);
      assert h - todo == {};
      while |todo| > 0
        invariant todo <= h
        invariant State() == Rules.HideRows(db0, sid, h - todo)
        decreases |todo|
      {
        todo := HideRow(db0, sid, h, todo);
      }
      assert h - todo == h;
    }

    /** The write of `hidden := true` on one more row of `todo`, the rows of `h` not yet
        hidden; it returns the rows still to write. */
    method HideRow(ghost db0: Db, sid: int, ghost h: set<int>, todo: set<int>) returns (rest: set<int>)
      requires todo <= h <= VisibleOf(db0.minifigs, sid) && |todo| > 0
      requires State() == Rules.HideRows(db0, sid, h - todo)
      modifies this
      ensures rest <= todo && |rest| < |todo|
      ensures State() == Rules.HideRows(db0, sid, h - rest)
    {
      var x := Pick(todo);
      HideStep(db0, sid, h - todo, x);
      UpdateMinifigure(x, minifigs[x].(hidden := true));
      rest := todo - {x};
      assert (h - todo) + {x} == h - rest;
    }

    /** unhideSeries: every minifigure of the series is written visible; no rule fires. */
    method UnhideSeries(sid: int) returns (rows: nat)
      modifies this
      ensures Rules.Updated(State(), rows) == Rules.UnhideSeries(old(State()), sid)
    {
      ghost var db0 := State();
      var u := MinifigsOf(minifigs, sid);
      var todo := u;
      ghost var done: set<int> := {};
      UnhideRowsEmpty(db0);
      while |todo| > 0
        invariant u == MinifigsOf(db0.minifigs, sid) && done <= u && todo == u - done
        invariant State() == Rules.UnhideRows(db0, done)
        decreases |todo|
      {
        var x := Pick(todo);
        UnhideStep(db0, done, x);
        UpdateMinifigure(x, minifigs[x].(hidden := false));
        done := done + {x};
        todo := todo - {x};
      }
      assert done == u;
      return |u|;
    }

    // ---------------------------------------------- MinifigureInventoryItemDao updates

    /** toggleMinifigureInventoryItemCollectedState */
    method ToggleItemCollected(itemId: int) returns (rows: nat)
      modifies this
      ensures Rules.Updated(State(), rows) == Rules.ToggleItemCollected(old(State()), itemId)
    {
      if itemId !in items {
        return 0;
      }
      UpdateItemCollected(itemId, !items[itemId].collected);
      return 1;
    }

    /** keepMinifigureCollectedStateInSync */
    method KeepCollectedInSync(mid: int)
      modifies this
      ensures State() == Rules.KeepCollectedInSync(old(State()), mid)
    {
      if mid in minifigs {
        var m := minifigs[mid];
        var full := m.numOfCollectedInventoryItems == m.inventorySize;
        UpdateMinifigure(mid, m.(collected := full, wishListed := if full then false else m.wishListed));
      }
    }

    /** toggleMinifigInvItemCollectedStateAndKeepMinifigCollectedStateInSync: the resync
        runs only when the toggle matched a row. */
    method ToggleItemAndKeepInSync(itemId: int, mid: int)
      modifies this
      ensures State() == Rules.ToggleItemAndKeepInSync(old(State()), itemId, mid)
    {
      var n := ToggleItemCollected(itemId);
      if n != 0 {
        KeepCollectedInSync(mid);
      }
    }

    // ---------------------------------------------- SeriesDao update

    /** setSeriesFavoriteState */
    method SetSeriesFavoriteState(sid: int, favorite: bool)
      modifies this
      ensures State() == Rules.SetSeriesFavorite(old(State()), sid, favorite)
    {
      if sid in series {
        series := series[sid := series[sid].(favorite := favorite)];
      }
    }

    // ---------------------------------------------- UpsertDao

    /** upsertAll: the series, minifigure and item patches upserted in that order, then the
        collected pass over the listed item ids in chunks of at most the bind limit, all in
        one transaction. Foreign keys are checked row by row as each row is written; the
        first violation throws and the transaction rolls back to the state it started from. */
    method UpsertAll(ss: seq<PartialSeries>, ms: seq<PartialMinifigure>, ips: seq<PartialInventoryItem>)
      returns (committed: bool)
      modifies this
      ensures var o := Merge.UpsertAll(old(State()), ss, ms, ips);
        && committed == o.Committed?
        && (committed ==> State() == o.db)
        && (!committed ==> State() == old(State()))
    {
      var before := State();
      UpsertSeriesRows(ss);
      var ok := UpsertMinifigureRows(ms);
      if !ok {
        Restore(before);
        return false;
      }
      ok := UpsertItemRows(ips);
      if !ok {
        Restore(before);
        return false;
      }
      assert State() == Merge.Upserted(before, ss, ms, ips);
      var ids := Merge.ItemKeys(ips);
      if |ids| > 0 {
        ApplyCollectedStatusInChunks(ids);
      }
      return true;
    }

    /** The rollback: the tables return to the content they had when the transaction began. */
    method Restore(db: Db)
      modifies this
      ensures State() == db
    {
      series := db.series;
      minifigs := db.minifigs;
      items := db.items;
    }

    /** insertOrUpdateSeries: each patch is inserted with the column defaults, or, when its
        id is taken, written over the patch columns of the stored row. */
    method UpsertSeriesRows(ss: seq<PartialSeries>)
      modifies this
      ensures series == Merge.UpsertSeriesList(old(series), ss)
      ensures minifigs == old(minifigs) && items == old(items)
    {
      var i := 0;
      while i < |ss|
        invariant 0 <= i <= |ss|
        invariant series == Merge.UpsertSeriesList(old(series), ss[..i])
        invariant minifigs == old(minifigs) && items == old(items)
      {
        var p := ss[i];
        if p.id in series {
          series := series[p.id := PatchSeries(series[p.id], p)];
        } else {
          series := series[p.id := NewSeries(p)];
        }
        assert ss[..i + 1][..i] == ss[..i];
        i := i + 1;
      }
      assert ss[..|ss|] == ss;
    }

    /** insertOrUpdateMinifigures: as for series, each row checked against the series table
        as it is written; `ok` is false at the first row whose series is missing (the
        writes made so far are then undone by the caller's rollback). No rule fires: the
        patch columns are none of those the rules watch. */
    method UpsertMinifigureRows(ms: seq<PartialMinifigure>) returns (ok: bool)
      modifies this
      ensures series == old(series) && items == old(items)
      ensures ok == !Merge.MissingSeries(series, ms)
      ensures ok ==> minifigs == Merge.UpsertMinifigureList(old(minifigs), ms)
    {
      var i := 0;
      while i < |ms|
        invariant 0 <= i <= |ms|
        invariant minifigs == Merge.UpsertMinifigureList(old(minifigs), ms[..i])
        invariant series == old(series) && items == old(items)
        invariant forall j :: 0 <= j < i ==> ms[j].seriesId in series
      {
        var p := ms[i];
        if p.seriesId !in series {
          return false;
        }
        if p.id in minifigs {
          minifigs := minifigs[p.id := PatchMinifigure(minifigs[p.id], p)];
        } else {
          minifigs := minifigs[p.id := NewMinifigure(p)];
        }
        assert ms[..i + 1][..i] == ms[..i];
        i := i + 1;
      }
      assert ms[..|ms|] == ms;
      return true;
    }

    /** insertOrUpdateMinifigInventoryItems: as for minifigures, each row checked against the
        minifigure table; a stored item keeps its `collected`, so the counter rule does not
        fire. */
    method UpsertItemRows(ips: seq<PartialInventoryItem>) returns (ok: bool)
      modifies this
      ensures series == old(series) && minifigs == old(minifigs)
      ensures ok == !Merge.MissingMinifigure(minifigs, ips)
      ensures ok ==> items == Merge.UpsertItemList(old(items), ips)
    {
      var i := 0;
      while i < |ips|
        invariant 0 <= i <= |ips|
        invariant items == Merge.UpsertItemList(old(items), ips[..i])
        invariant series == old(series) && minifigs == old(minifigs)
        invariant forall j :: 0 <= j < i ==> ips[j].minifigureId in minifigs
      {
        var p := ips[i];
        if p.minifigureId !in minifigs {
          return false;
        }
        if p.id in items {
          items := items[p.id := PatchItem(items[p.id], p)];
        } else {
          items := items[p.id := NewItem(p)];
        }
        assert ips[..i + 1][..i] == ips[..i];
        i := i + 1;
      }
      assert ips[..|ips|] == ips;
      return true;
    }

    /** The forEach of upsertAll: one collected-pass UPDATE per chunk of `ids`. The chunks
        together end where a single pass over all of `ids` would. */
    method ApplyCollectedStatusInChunks(ids: seq<int>)
      modifies this
      ensures State() == Merge.ApplyCollectedStatus(old(State()), ids)
    {
      ghost var u := State();
      var chunks := Merge.Chunked(ids, Merge.ITEM_IDS_CHUNK_SIZE);
      ChunkedPassEnds(u, chunks);
      var j := 0;
      while j < |chunks|
        invariant 0 <= j <= |chunks|
        invariant State() == ChunkedPass(u, chunks, j)
      {
        ChunkStep(u, chunks, j);
        ApplyCollectedStatusToItems(chunks[j]);
        j := j + 1;
      }
    }

    /** applyCollectedStatusToMinifigureInventoryItems: UPDATE ... SET collected = 1 on the
        listed items whose minifigure is collected. The rows are written one at a time, each
        firing the counter rule when it changed; the counter rule leaves every minifigure's
        `collected` alone, so the rows the WHERE clause selects do not change meanwhile. */
    method ApplyCollectedStatusToItems(ids: seq<int>)
      modifies this
      ensures State() == Merge.ApplyCollectedStatus(old(State()), ids)
    {
      ghost var db0 := State();
      var rows := Merge.EligibleRows(State(), Elems(ids));
      var todo := rows;
      Merge.MarkRowsIdle(db0, {});
      assert rows - todo == {};
      while |todo| > 0
        invariant todo <= rows
        invariant State() == Merge.MarkRows(db0, rows - todo)
        decreases |todo|
      {
        todo := MarkRow(db0, rows, todo);
      }
      assert rows - todo == rows;
    }

    /** The write of `collected := true` on one more row of `todo`. */
    method MarkRow(ghost db0: Db, ghost rows: set<int>, todo: set<int>) returns (rest: set<int>)
      requires todo <= rows <= db0.items.Keys && |todo| > 0
      requires State() == Merge.MarkRows(db0, rows - todo)
      modifies this
      ensures rest <= todo && |rest| < |todo|
      ensures State() == Merge.MarkRows(db0, rows - rest)
    {
      var x := Pick(todo);
      Merge.MarkRowsStep(db0, rows - todo, x);
      UpdateItemCollected(x, true);
      rest := todo - {x};
      assert (rows - todo) + {x} == rows - rest;
    }
  }

  /** Some row of `rows`: SQLite visits the rows an UPDATE matches in an order the
      statement does not fix. */
  method Pick(rows: set<int>) returns (x: int)
    requires |rows| > 0
    ensures x in rows
  {
    if forall y :: y !in rows {
      assert false;
    }
    x :| x in rows;
  }

  /** No row unhidden is the identity. */
  lemma UnhideRowsEmpty(db: Db)
    ensures Rules.UnhideRows(db, {}) == db
  {
    assert Rules.UnhideRows(db, {}).minifigs == db.minifigs;
  }

  /** One more row of unhideSeries: the write of `hidden := false` fires no rule and extends
      the closed form by that row. */
  lemma UnhideStep(db: Db, d: set<int>, x: int)
    requires x in db.minifigs
    ensures var e := Rules.UnhideRows(db, d);
      && x in e.minifigs && Rules.SingleRuleWrite(e.minifigs[x], e.minifigs[x].(hidden := false))
      && Rules.WriteMinifigure(e, x, e.minifigs[x].(hidden := false)) == Rules.UnhideRows(db, d + {x})
  {
    var e := Rules.UnhideRows(db, d);
    UnhideRunsNoRule(e, x);
    assert e.minifigs[x := e.minifigs[x].(hidden := false)] == Rules.UnhideRows(db, d + {x}).minifigs;
  }

  /** The state after the collected passes over the first `j` chunks: one pass over their
      ids taken together. */
  ghost function ChunkedPass(u: Db, chunks: seq<seq<int>>, j: int): Db
    requires 0 <= j <= |chunks|
  {
    Merge.MarkRows(u, Merge.EligibleRows(u, Elems(Merge.Flatten(chunks[..j]))))
  }

  /** Before any chunk the state is untouched; after all of them it is where one pass over
      all the ids would end. */
  lemma ChunkedPassEnds(u: Db, chunks: seq<seq<int>>)
    ensures ChunkedPass(u, chunks, 0) == u
    ensures ChunkedPass(u, chunks, |chunks|) == Merge.ApplyCollectedStatus(u, Merge.Flatten(chunks))
  {
    Merge.MarkRowsIdle(u, {});
    assert Merge.EligibleRows(u, Elems(Merge.Flatten(chunks[..0]))) == {};
    assert chunks[..|chunks|] == chunks;
  }

  /** The pass over chunk `j`, run after the earlier chunks, extends the single pass by that
      chunk's ids. */
  lemma ChunkStep(u: Db, chunks: seq<seq<int>>, j: int)
    requires 0 <= j < |chunks|
    ensures Merge.ApplyCollectedStatus(ChunkedPass(u, chunks, j), chunks[j]) == ChunkedPass(u, chunks, j + 1)
  {
    var a := Merge.EligibleRows(u, Elems(Merge.Flatten(chunks[..j])));
    var b := Merge.EligibleRows(u, Elems(chunks[j]));
    Merge.MarkRowsFrame(u, a, Elems(chunks[j]));
    Merge.MarkRowsCompose(u, a, b);
    assert chunks[..j + 1] == chunks[..j] + [chunks[j]];
    Merge.FlattenSnoc(chunks[..j], chunks[j]);
    assert Elems(Merge.Flatten(chunks[..j]) + chunks[j]) == Elems(Merge.Flatten(chunks[..j])) + Elems(chunks[j]);
    assert Merge.EligibleRows(u, Elems(Merge.Flatten(chunks[..j + 1]))) == a + b;
  }
}
