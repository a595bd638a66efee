/** What `upsertAll` does to the store as a whole: when it rolls back, what a committed
    merge leaves in each table, the invariants it keeps, that a repeated batch changes
    nothing, and that a late inventory of a collected minifigure ends up counted. */
module MergeLemmas {
  import opened Records
  import opened Catalog
  import opened Rules
  import opened Merge
  import opened DaoLemmas

  // ------------------------------------------------ rows after the upserts

  /** The upserted item table row by row: a listed id holds its last patch and keeps the
      `collected` it had (false when new); an unlisted row is unchanged. */
  lemma UpsertedItems(m: map<int, InventoryItem>, ps: seq<PartialInventoryItem>)
    ensures var r := UpsertItemList(m, ps);
      && r.Keys == m.Keys + Elems(ItemKeys(ps))
      && (forall k :: k in m && k !in Elems(ItemKeys(ps)) ==> r[k] == m[k])
      && (forall k :: k in Elems(ItemKeys(ps)) ==>
            && ItemPatchOf(r[k]) == ps[LastIndex(ItemKeys(ps), k)]
            && r[k].collected == (k in m && m[k].collected))
  {
    var r := UpsertItemList(m, ps);
    UpsertItemListEffect(m, ps);
    forall k | k in Elems(ItemKeys(ps))
      ensures ItemPatchOf(r[k]) == ps[LastIndex(ItemKeys(ps), k)]
      ensures r[k].collected == (k in m && m[k].collected)
    {
      var i := LastIndex(ItemKeys(ps), k);
      assert ItemEntryApplied(m, ps, i);
    }
  }

  /** The upserted minifigure table row by row: a listed id holds its last patch; a stored
      row keeps its flags and counter, a new one starts with the defaults. */
  lemma UpsertedMinifigs(m: map<int, Minifigure>, ps: seq<PartialMinifigure>)
    ensures var r := UpsertMinifigureList(m, ps);
      && r.Keys == m.Keys + Elems(MinifigureKeys(ps))
      && (forall k :: k in m && k !in Elems(MinifigureKeys(ps)) ==> r[k] == m[k])
      && (forall k :: k in Elems(MinifigureKeys(ps)) ==>
            MinifigurePatchOf(r[k]) == ps[LastIndex(MinifigureKeys(ps), k)])
      && (forall k :: k in m ==> SameMinifigureUserState(r[k], m[k]))
      && (forall k :: k in r && k !in m ==>
            !r[k].collected && !r[k].wishListed && !r[k].favorite && !r[k].hidden
            && r[k].numOfCollectedInventoryItems == 0)
  {
    var r := UpsertMinifigureList(m, ps);
    UpsertMinifigureListEffect(m, ps);
    forall k | k in Elems(MinifigureKeys(ps))
      ensures MinifigurePatchOf(r[k]) == ps[LastIndex(MinifigureKeys(ps), k)]
      ensures k in m ==> SameMinifigureUserState(r[k], m[k])
      ensures k !in m ==> r[k] == NewMinifigure(ps[LastIndex(MinifigureKeys(ps), k)])
    {
      var i := LastIndex(MinifigureKeys(ps), k);
      assert MinifigureEntryApplied(m, ps, i);
    }
  }

  /** The upserted series table: a listed id holds its last patch; a stored row keeps its
      favorite flag and both counters, a new one starts with the defaults. */
  lemma UpsertedSeries(m: map<int, Series>, ps: seq<PartialSeries>)
    ensures var r := UpsertSeriesList(m, ps);
      && r.Keys == m.Keys + Elems(SeriesKeys(ps))
      && (forall k :: k in m && k !in Elems(SeriesKeys(ps)) ==> r[k] == m[k])
      && (forall k :: k in Elems(SeriesKeys(ps)) ==>
            SeriesPatchOf(r[k]) == ps[LastIndex(SeriesKeys(ps), k)])
      && (forall k :: k in m ==> SameSeriesUserState(r[k], m[k]))
      && (forall k :: k in r && k !in m ==>
            !r[k].favorite && r[k].numOfMinifigsCollected == 0 && r[k].numOfMinifigsHidden == 0)
  {
    var r := UpsertSeriesList(m, ps);
    UpsertSeriesListEffect(m, ps);
    forall k | k in Elems(SeriesKeys(ps))
      ensures SeriesPatchOf(r[k]) == ps[LastIndex(SeriesKeys(ps), k)]
      ensures k in m ==> SameSeriesUserState(r[k], m[k])
      ensures k !in m ==> r[k] == NewSeries(ps[LastIndex(SeriesKeys(ps), k)])
    {
      var i := LastIndex(SeriesKeys(ps), k);
      assert SeriesEntryApplied(m, ps, i);
    }
  }

  // ------------------------------------------------ rollback

  /** Some minifigure patch names a series that is neither stored nor in the batch. */
  predicate DanglingSeries(db: Db, ss: seq<PartialSeries>, ms: seq<PartialMinifigure>)
  {
    exists i :: 0 <= i < |ms| && ms[i].seriesId !in db.series && ms[i].seriesId !in Elems(SeriesKeys(ss))
  }

  /** Some item patch names a minifigure that is neither stored nor in the batch. */
  predicate DanglingMinifigure(db: Db, ms: seq<PartialMinifigure>, ips: seq<PartialInventoryItem>)
  {
    exists i :: 0 <= i < |ips| && ips[i].minifigureId !in db.minifigs
                && ips[i].minifigureId !in Elems(MinifigureKeys(ms))
  }

  /** The transaction rolls back exactly when some patch names a parent that neither the
      store nor the batch holds. */
  lemma UpsertAllRollsBack(db: Db, ss: seq<PartialSeries>, ms: seq<PartialMinifigure>,
                           ips: seq<PartialInventoryItem>)
    ensures UpsertAll(db, ss, ms, ips).RolledBack?
            <==> DanglingSeries(db, ss, ms) || DanglingMinifigure(db, ms, ips)
  {
    UpsertSeriesListKeys(db.series, ss);
    UpsertMinifigureListKeys(db.minifigs, ms);
  }

  // ------------------------------------------------ effect of a committed merge

  /** The rows the collected pass marks: none when the item list is empty. */
  function PassRows(db: Db, ss: seq<PartialSeries>, ms: seq<PartialMinifigure>,
                    ips: seq<PartialInventoryItem>): set<int>
  {
    if ips == [] then {} else EligibleRows(Upserted(db, ss, ms, ips), Elems(ItemKeys(ips)))
  }

  /** A committed merge is the pass over the upserted tables, and every patch named a
      parent present after the upserts. */
  lemma CommittedState(db: Db, ss: seq<PartialSeries>, ms: seq<PartialMinifigure>,
                  ips: seq<PartialInventoryItem>)
    requires UpsertAll(db, ss, ms, ips).Committed?
    ensures var u := Upserted(db, ss, ms, ips);
      && UpsertAll(db, ss, ms, ips).db == MarkRows(u, PassRows(db, ss, ms, ips))
      && (forall i :: 0 <= i < |ms| ==> ms[i].seriesId in u.series)
      && (forall i :: 0 <= i < |ips| ==> ips[i].minifigureId in u.minifigs)
  {
  }

  /** A committed merge leaves series as upserted, minifigures with their last patch and
      their flags (the defaults for new ones), every batch item with its last patch and
      collected when it was or when its minifigure is, and every other item untouched.
      With no item patches the collected pass does not run. */
  lemma UpsertAllEffect(db: Db, ss: seq<PartialSeries>, ms: seq<PartialMinifigure>,
                        ips: seq<PartialInventoryItem>)
    ensures var o := UpsertAll(db, ss, ms, ips);
      o.Committed? ==>
        var r := o.db;
        var batch := Elems(ItemKeys(ips));
        && r.series == UpsertSeriesList(db.series, ss)
        && r.minifigs.Keys == db.minifigs.Keys + Elems(MinifigureKeys(ms))
        && (forall k :: k in Elems(MinifigureKeys(ms)) ==>
              MinifigurePatchOf(r.minifigs[k]) == ms[LastIndex(MinifigureKeys(ms), k)])
        && (forall k :: k in db.minifigs && k !in Elems(MinifigureKeys(ms)) ==>
              MinifigurePatchOf(r.minifigs[k]) == MinifigurePatchOf(db.minifigs[k]))
        && (forall k :: k in r.minifigs ==>
              r.minifigs[k].collected == (k in db.minifigs && db.minifigs[k].collected)
              && r.minifigs[k].wishListed == (k in db.minifigs && db.minifigs[k].wishListed)
              && r.minifigs[k].favorite == (k in db.minifigs && db.minifigs[k].favorite)
              && r.minifigs[k].hidden == (k in db.minifigs && db.minifigs[k].hidden))
        && r.items.Keys == db.items.Keys + batch
        && (forall k :: k in batch ==>
              && ItemPatchOf(r.items[k]) == ips[LastIndex(ItemKeys(ips), k)]
              && r.items[k].minifigureId in r.minifigs
              && r.items[k].collected
                 == ((k in db.items && db.items[k].collected) || r.minifigs[r.items[k].minifigureId].collected))
        && (forall k :: k in db.items && k !in batch ==> r.items[k] == db.items[k])
        && (ips == [] ==> r.items == db.items
                          && r.minifigs == UpsertMinifigureList(db.minifigs, ms))
  {
    UpsertAllSeriesAndMinifigs(db, ss, ms, ips);
    UpsertAllItems(db, ss, ms, ips);
  }

  /** The series and minifigure half of UpsertAllEffect. */
  lemma UpsertAllSeriesAndMinifigs(db: Db, ss: seq<PartialSeries>, ms: seq<PartialMinifigure>,
                                   ips: seq<PartialInventoryItem>)
    ensures var o := UpsertAll(db, ss, ms, ips);
      o.Committed? ==>
        var r := o.db;
        && r.series == UpsertSeriesList(db.series, ss)
        && r.minifigs.Keys == db.minifigs.Keys + Elems(MinifigureKeys(ms))
        && (forall k :: k in Elems(MinifigureKeys(ms)) ==>
              MinifigurePatchOf(r.minifigs[k]) == ms[LastIndex(MinifigureKeys(ms), k)])
        && (forall k :: k in db.minifigs && k !in Elems(MinifigureKeys(ms)) ==>
              MinifigurePatchOf(r.minifigs[k]) == MinifigurePatchOf(db.minifigs[k]))
        && (forall k :: k in r.minifigs ==>
              r.minifigs[k].collected == (k in db.minifigs && db.minifigs[k].collected)
              && r.minifigs[k].wishListed == (k in db.minifigs && db.minifigs[k].wishListed)
              && r.minifigs[k].favorite == (k in db.minifigs && db.minifigs[k].favorite)
              && r.minifigs[k].hidden == (k in db.minifigs && db.minifigs[k].hidden))
        && (ips == [] ==> r.minifigs == UpsertMinifigureList(db.minifigs, ms))
  {
    var o := UpsertAll(db, ss, ms, ips);
    if o.Committed? {
      var u := Upserted(db, ss, ms, ips);
      UpsertedMinifigs(db.minifigs, ms);
      if ips != [] {
        var rows := EligibleRows(u, Elems(ItemKeys(ips)));
        assert o.db == MarkRows(u, rows);
        MarkRowsFrame(u, rows, Elems(ItemKeys(ips)));
      }
    }
  }

  /** The item half of UpsertAllEffect. */
  lemma UpsertAllItems(db: Db, ss: seq<PartialSeries>, ms: seq<PartialMinifigure>,
                       ips: seq<PartialInventoryItem>)
    ensures var o := UpsertAll(db, ss, ms, ips);
      o.Committed? ==>
        var r := o.db;
        var batch := Elems(ItemKeys(ips));
        && r.items.Keys == db.items.Keys + batch
        && (forall k :: k in batch ==>
              && ItemPatchOf(r.items[k]) == ips[LastIndex(ItemKeys(ips), k)]
              && r.items[k].minifigureId in r.minifigs
              && r.items[k].collected
                 == ((k in db.items && db.items[k].collected) || r.minifigs[r.items[k].minifigureId].collected))
        && (forall k :: k in db.items && k !in batch ==> r.items[k] == db.items[k])
        && (ips == [] ==> r.items == db.items)
  {
    var o := UpsertAll(db, ss, ms, ips);
    if o.Committed? {
      var u := Upserted(db, ss, ms, ips);
      var batch := Elems(ItemKeys(ips));
      UpsertedItems(db.items, ips);
      if ips != [] {
        var rows := EligibleRows(u, batch);
        assert o.db == MarkRows(u, rows);
        MarkRowsFrame(u, rows, batch);
        forall k | k in batch ensures u.items[k].minifigureId in u.minifigs {
          var i := LastIndex(ItemKeys(ips), k);
          assert !MissingMinifigure(u.minifigs, ips);
          assert ips[i].minifigureId in u.minifigs;
        }
      } else {
        assert batch == {};
      }
    }
  }

  // ------------------------------------------------ invariants

  /** No batch item names a different minifigure than the stored row with its id. */
  predicate NoItemMoves(db: Db, ips: seq<PartialInventoryItem>)
  {
    forall i :: 0 <= i < |ips| && ips[i].id in db.items ==>
      ips[i].minifigureId == db.items[ips[i].id].minifigureId
  }

  /** A committed merge keeps both foreign keys. */
  lemma UpsertAllKeepsForeignKeys(db: Db, ss: seq<PartialSeries>, ms: seq<PartialMinifigure>,
                                  ips: seq<PartialInventoryItem>)
    requires ForeignKeysHold(db)
    ensures var o := UpsertAll(db, ss, ms, ips);
      o.Committed? ==> ForeignKeysHold(o.db)
  {
    var o := UpsertAll(db, ss, ms, ips);
    if o.Committed? {
      var u := Upserted(db, ss, ms, ips);
      var r := o.db;
      UpsertAllEffect(db, ss, ms, ips);
      UpsertedSeries(db.series, ss);
      forall k | k in r.minifigs ensures r.minifigs[k].seriesId in r.series {
        if k in Elems(MinifigureKeys(ms)) {
          var i := LastIndex(MinifigureKeys(ms), k);
          assert !MissingSeries(u.series, ms);
          assert ms[i].seriesId in u.series;
        }
      }
      forall k | k in r.items ensures r.items[k].minifigureId in r.minifigs {
        if k !in Elems(ItemKeys(ips)) {
          assert r.items[k] == db.items[k];
        }
      }
    }
  }

  /** The upserts alone keep every counter equal to the minifigure's collected items when
      no stored item changes minifigure: listed items keep `collected`, new items start
      uncollected, and a new minifigure has no item yet. */
  lemma UpsertedCounters(db: Db, ss: seq<PartialSeries>, ms: seq<PartialMinifigure>,
                         ips: seq<PartialInventoryItem>)
    requires ForeignKeysHold(db) && CounterConsistent(db) && NoItemMoves(db, ips)
    ensures var u := Upserted(db, ss, ms, ips);
      && (forall k :: k in u.minifigs ==>
            CollectedItemsOf(u.items, k) == (if k in db.minifigs then CollectedItemsOf(db.items, k) else {}))
      && CounterConsistent(u)
  {
    UpsertedMinifigs(db.minifigs, ms);
    UpsertedItemsKeepOwner(db, ips);
    CountersKept(db, Upserted(db, ss, ms, ips));
  }

  /** Without moves, every stored item keeps its minifigure and its `collected` through the
      item upserts, and every new one starts uncollected. */
  lemma UpsertedItemsKeepOwner(db: Db, ips: seq<PartialInventoryItem>)
    requires NoItemMoves(db, ips)
    ensures var r := UpsertItemList(db.items, ips);
      && db.items.Keys <= r.Keys
      && (forall x :: x in r && x in db.items ==>
            r[x].minifigureId == db.items[x].minifigureId && r[x].collected == db.items[x].collected)
      && (forall x :: x in r && x !in db.items ==> !r[x].collected)
  {
  }

  /** Counters stay consistent across a change of the tables that keeps every stored
      counter, owner and `collected`, adds only uncollected items and adds minifigures with
      a zero counter. */
  lemma CountersKept(db: Db, u: Db)
    requires ForeignKeysHold(db) && CounterConsistent(db)
    requires db.minifigs.Keys <= u.minifigs.Keys && db.items.Keys <= u.items.Keys
    requires forall k :: k in db.minifigs ==> SameMinifigureUserState(u.minifigs[k], db.minifigs[k])
    requires forall k :: k in u.minifigs && k !in db.minifigs ==> u.minifigs[k].numOfCollectedInventoryItems == 0
    requires forall x :: x in u.items && x in db.items ==>
      u.items[x].minifigureId == db.items[x].minifigureId && u.items[x].collected == db.items[x].collected
    requires forall x :: x in u.items && x !in db.items ==> !u.items[x].collected
    ensures forall k :: k in u.minifigs ==>
      CollectedItemsOf(u.items, k) == (if k in db.minifigs then CollectedItemsOf(db.items, k) else {})
    ensures CounterConsistent(u)
  {
    forall k | k in u.minifigs
      ensures CollectedItemsOf(u.items, k) == (if k in db.minifigs then CollectedItemsOf(db.items, k) else {})
    {
      if k !in db.minifigs {
        forall x | x in CollectedItemsOf(u.items, k) ensures false { }
      } else {
        forall x ensures x in CollectedItemsOf(u.items, k) <==> x in CollectedItemsOf(db.items, k) {
          if x in CollectedItemsOf(u.items, k) {
            assert x in db.items;
          }
        }
      }
    }
  }

  /** The upserts alone keep the three invariants when no stored item changes minifigure:
      flags are kept, new minifigures start with none, and counters stay consistent. */
  lemma UpsertedKeepsInv(db: Db, ss: seq<PartialSeries>, ms: seq<PartialMinifigure>,
                         ips: seq<PartialInventoryItem>)
    requires ForeignKeysHold(db) && Inv(db) && NoItemMoves(db, ips)
    ensures Inv(Upserted(db, ss, ms, ips))
  {
    UpsertedCounters(db, ss, ms, ips);
    UpsertedMinifigs(db.minifigs, ms);
    FlagsKept(db, Upserted(db, ss, ms, ips));
  }

  /** Mutual exclusion and the reset of hidden rows survive a change that keeps the flags
      and collected items of stored minifigures and adds minifigures with no flag set. */
  lemma FlagsKept(db: Db, u: Db)
    requires MutuallyExclusive(db) && HiddenReset(db)
    requires db.minifigs.Keys <= u.minifigs.Keys
    requires forall k :: k in db.minifigs ==> SameMinifigureUserState(u.minifigs[k], db.minifigs[k])
    requires forall k :: k in u.minifigs && k !in db.minifigs ==>
      !u.minifigs[k].collected && !u.minifigs[k].wishListed && !u.minifigs[k].favorite && !u.minifigs[k].hidden
    requires forall k :: k in u.minifigs ==>
      CollectedItemsOf(u.items, k) == (if k in db.minifigs then CollectedItemsOf(db.items, k) else {})
    ensures MutuallyExclusive(u) && HiddenReset(u)
  {
  }

  /** Marking items whose minifigure is collected keeps the three invariants: no hidden
      minifigure is collected, so none of its items is marked. */
  lemma MarkCollectedKeepsInv(u: Db, rows: set<int>)
    requires Inv(u)
    requires forall x :: x in rows && x in u.items ==>
      u.items[x].minifigureId in u.minifigs && u.minifigs[u.items[x].minifigureId].collected
    ensures Inv(MarkRows(u, rows))
  {
    var r := MarkRows(u, rows);
    MarkRowsEffect(u, rows);
    MarkRowsFrame(u, rows, {});
    forall k | k in r.minifigs && r.minifigs[k].hidden
      ensures CollectedItemsOf(r.items, k) == {}
    {
      forall x | x in rows * ItemsOf(u.items, k) ensures false { }
    }
  }

  /** The rows of the pass all belong to collected minifigures. */
  lemma PassRowsEligible(db: Db, ss: seq<PartialSeries>, ms: seq<PartialMinifigure>,
                         ips: seq<PartialInventoryItem>)
    ensures var u := Upserted(db, ss, ms, ips);
      forall x :: x in PassRows(db, ss, ms, ips) ==>
        && x in u.items && x in Elems(ItemKeys(ips))
        && u.items[x].minifigureId in u.minifigs && u.minifigs[u.items[x].minifigureId].collected
  {
  }

  /** A committed merge keeps foreign keys, counters, mutual exclusion and the reset of
      hidden minifigures, provided no stored item changes minifigure (see
      `ItemMoveBreaksCounter` for what happens otherwise). */
  lemma UpsertAllKeepsInv(db: Db, ss: seq<PartialSeries>, ms: seq<PartialMinifigure>,
                          ips: seq<PartialInventoryItem>)
    requires ForeignKeysHold(db) && Inv(db) && NoItemMoves(db, ips)
    ensures var o := UpsertAll(db, ss, ms, ips);
      o.Committed? ==> ForeignKeysHold(o.db) && Inv(o.db)
  {
    if UpsertAll(db, ss, ms, ips).Committed? {
      UpsertAllKeepsForeignKeys(db, ss, ms, ips);
      CommittedState(db, ss, ms, ips);
      UpsertedKeepsInv(db, ss, ms, ips);
      PassRowsEligible(db, ss, ms, ips);
      MarkCollectedKeepsInv(Upserted(db, ss, ms, ips), PassRows(db, ss, ms, ips));
    }
  }

  // ------------------------------------------------ a repeated batch

  /** Upserting the batch again over tables that already carry its last patches, with the
      same keys as after the first upserts, changes nothing. */
  lemma UpsertedAgain(db: Db, ss: seq<PartialSeries>, ms: seq<PartialMinifigure>,
                      ips: seq<PartialInventoryItem>, r: Db)
    requires var u := Upserted(db, ss, ms, ips);
      && r.series == u.series
      && r.minifigs.Keys == u.minifigs.Keys && r.items.Keys == u.items.Keys
      && (forall k :: k in u.minifigs ==> MinifigurePatchOf(r.minifigs[k]) == MinifigurePatchOf(u.minifigs[k]))
      && (forall k :: k in u.items ==> ItemPatchOf(r.items[k]) == ItemPatchOf(u.items[k]))
    ensures Upserted(r, ss, ms, ips) == r
  {
    SeriesAgain(db.series, ss, r.series);
    MinifigsAgain(db.minifigs, ms, r.minifigs);
    ItemsAgain(db.items, ips, r.items);
  }

  lemma SeriesAgain(m: map<int, Series>, ps: seq<PartialSeries>, r: map<int, Series>)
    requires r == UpsertSeriesList(m, ps)
    ensures UpsertSeriesList(r, ps) == r
  {
    UpsertedSeries(m, ps);
    forall i | 0 <= i < |ps| && IsLast(SeriesKeys(ps), i)
      ensures ps[i].id in r && SeriesPatchOf(r[ps[i].id]) == ps[i]
    {
      LastIndexOfLast(SeriesKeys(ps), i);
    }
    UpsertSeriesListFixpoint(r, ps);
  }

  lemma MinifigsAgain(m: map<int, Minifigure>, ps: seq<PartialMinifigure>, r: map<int, Minifigure>)
    requires var u := UpsertMinifigureList(m, ps);
      r.Keys == u.Keys && forall k :: k in u ==> MinifigurePatchOf(r[k]) == MinifigurePatchOf(u[k])
    ensures UpsertMinifigureList(r, ps) == r
  {
    var u := UpsertMinifigureList(m, ps);
    UpsertMinifigureListEffect(m, ps);
    forall i | 0 <= i < |ps| && IsLast(MinifigureKeys(ps), i)
      ensures ps[i].id in r && MinifigurePatchOf(r[ps[i].id]) == ps[i]
    {
      assert MinifigureEntryApplied(m, ps, i);
    }
    UpsertMinifigureListFixpoint(r, ps);
  }

  lemma ItemsAgain(m: map<int, InventoryItem>, ps: seq<PartialInventoryItem>, r: map<int, InventoryItem>)
    requires var u := UpsertItemList(m, ps);
      r.Keys == u.Keys && forall k :: k in u ==> ItemPatchOf(r[k]) == ItemPatchOf(u[k])
    ensures UpsertItemList(r, ps) == r
  {
    var u := UpsertItemList(m, ps);
    UpsertedItems(m, ps);
    forall i | 0 <= i < |ps| && IsLast(ItemKeys(ps), i)
      ensures ps[i].id in r && ItemPatchOf(r[ps[i].id]) == ps[i]
    {
      LastIndexOfLast(ItemKeys(ps), i);
      assert ItemPatchOf(u[ps[i].id]) == ps[i];
    }
    UpsertItemListFixpoint(r, ps);
  }

  /** The last occurrence of a key is found at its own position. */
  lemma LastIndexOfLast(keys: seq<int>, i: int)
    requires 0 <= i < |keys| && IsLast(keys, i)
    ensures LastIndex(keys, keys[i]) == i
  {
  }

  /** Running the merge a second time with the same batch commits the state the first run
      left. */
  lemma UpsertAllIdempotent(db: Db, ss: seq<PartialSeries>, ms: seq<PartialMinifigure>,
                            ips: seq<PartialInventoryItem>)
    ensures var o := UpsertAll(db, ss, ms, ips);
      o.Committed? ==> UpsertAll(o.db, ss, ms, ips) == o
  {
    var o := UpsertAll(db, ss, ms, ips);
    if o.Committed? {
      var u := Upserted(db, ss, ms, ips);
      var r := o.db;
      var batch := Elems(ItemKeys(ips));
      var rows := PassRows(db, ss, ms, ips);
      CommittedState(db, ss, ms, ips);
      MarkRowsFrame(u, rows, batch);
      UpsertedAgain(db, ss, ms, ips, r);
      assert !MissingSeries(r.series, ms);
      assert !MissingMinifigure(r.minifigs, ips);
      if ips != [] {
        assert EligibleRows(r, batch) == rows;
        MarkRowsIdle(r, rows);
      }
    }
  }

  // ------------------------------------------------ a late inventory

  /** Marking the batch rows of collected minifigures, after upserts that kept the stored
      items of `mid`, completes a fully collected `mid`. */
  lemma MarkCompletes(db: Db, u: Db, rows: set<int>, batch: set<int>, mid: int)
    requires mid in u.minifigs && u.minifigs[mid].collected
    requires CollectedItemsOf(db.items, mid) == ItemsOf(db.items, mid)
    requires forall x :: x in u.items && x !in batch ==> x in db.items && u.items[x] == db.items[x]
    requires forall x :: x in u.items && x in batch && u.items[x].minifigureId == mid ==> x in rows
    requires forall x :: x in db.items ==> x in u.items && u.items[x].minifigureId == db.items[x].minifigureId
    ensures var r := MarkRows(u, rows);
      && CollectedItemsOf(r.items, mid) == ItemsOf(r.items, mid)
      && ItemsOf(db.items, mid) <= ItemsOf(r.items, mid)
  {
    var r := MarkRows(u, rows);
    MarkRowsFrame(u, rows, {});
    forall x | x in ItemsOf(r.items, mid) ensures r.items[x].collected {
      if x !in batch {
        assert x in ItemsOf(db.items, mid);
      }
    }
    forall x | x in ItemsOf(db.items, mid) ensures x in ItemsOf(r.items, mid) {
      assert x in u.items;
    }
  }

  /** The committed tables meet what `MarkCompletes` asks of the upserted ones. */
  lemma UpsertedKeepsStoredItems(db: Db, ss: seq<PartialSeries>, ms: seq<PartialMinifigure>,
                                 ips: seq<PartialInventoryItem>, mid: int)
    requires NoItemMoves(db, ips)
    requires mid in db.minifigs && db.minifigs[mid].collected
    ensures var u := Upserted(db, ss, ms, ips);
      var batch := Elems(ItemKeys(ips));
      && mid in u.minifigs && u.minifigs[mid].collected
      && (forall x :: x in u.items && x !in batch ==> x in db.items && u.items[x] == db.items[x])
      && (ips != [] ==> forall x :: x in u.items && x in batch && u.items[x].minifigureId == mid ==>
            x in PassRows(db, ss, ms, ips))
      && (forall x :: x in db.items ==> x in u.items && u.items[x].minifigureId == db.items[x].minifigureId)
  {
    UpsertedMinifigs(db.minifigs, ms);
    UpsertedItems(db.items, ips);
    UpsertedItemsKeepOwner(db, ips);
  }

  /** A set holds its subset and the rest. */
  lemma CardSplit(olds: set<int>, all: set<int>)
    requires olds <= all
    ensures |all| == |olds| + |all - olds|
  {
  }

  /** Items that arrive for a minifigure already collected with all its stored items are
      marked collected by the pass, so the minifigure ends with all its items collected
      and its counter raised by one per new item. */
  lemma LateInventoryCounted(db: Db, ss: seq<PartialSeries>, ms: seq<PartialMinifigure>,
                             ips: seq<PartialInventoryItem>, mid: int)
    requires ForeignKeysHold(db) && CounterConsistent(db) && NoItemMoves(db, ips)
    requires mid in db.minifigs && db.minifigs[mid].collected
    requires CollectedItemsOf(db.items, mid) == ItemsOf(db.items, mid)
    ensures var o := UpsertAll(db, ss, ms, ips);
      o.Committed? ==>
        && CollectedItemsOf(o.db.items, mid) == ItemsOf(o.db.items, mid)
        && ItemsOf(db.items, mid) <= ItemsOf(o.db.items, mid)
        && mid in o.db.minifigs
        && o.db.minifigs[mid].numOfCollectedInventoryItems
           == db.minifigs[mid].numOfCollectedInventoryItems
              + |ItemsOf(o.db.items, mid) - ItemsOf(db.items, mid)|
  {
    var o := UpsertAll(db, ss, ms, ips);
    if o.Committed? {
      var u := Upserted(db, ss, ms, ips);
      var rows := PassRows(db, ss, ms, ips);
      CommittedState(db, ss, ms, ips);
      UpsertedKeepsStoredItems(db, ss, ms, ips, mid);
      MarkCompletes(db, u, rows, Elems(ItemKeys(ips)), mid);
      UpsertedCounters(db, ss, ms, ips);
      MarkRowsEffect(u, rows);
      CardSplit(ItemsOf(db.items, mid), ItemsOf(o.db.items, mid));
    }
  }

  // ------------------------------------------------ the counter gap

  /** A consistent store: minifigure 1 is collected with its one item, minifigure 2 of the
      same series has none. */
  function MoveExampleDb(): Db
  {
    Db(map[1 := Series(1, "s", "s", 2, "2024-01-01", false, 0, 0)],
       map[1 := Minifigure(1, "a", "a", 1, 1, true, false, false, false, 1, 1),
           2 := Minifigure(2, "b", "b", 2, 1, false, false, false, false, 0, 1)],
       map[10 := InventoryItem(10, "i", "i", "p", 1, "Part", 1, true)])
  }

  /** The same item, reassigned to minifigure 2. */
  function MoveExamplePatch(): PartialInventoryItem
  {
    PartialInventoryItem(10, "i", "i", "p", 1, "Part", 2)
  }

  lemma MoveExampleConsistent()
    ensures ForeignKeysHold(MoveExampleDb()) && Inv(MoveExampleDb())
  {
    var db := MoveExampleDb();
    assert CollectedItemsOf(db.items, 1) == {10};
    assert CollectedItemsOf(db.items, 2) == {};
  }

  /** An upsert that moves a collected item to another minifigure breaks the counters:
      minifigure 2 ends with one collected item and a counter of 0. */
  lemma ItemMoveBreaksCounter()
    ensures var db := MoveExampleDb();
      var o := UpsertAll(db, [], [], [MoveExamplePatch()]);
      && ForeignKeysHold(db) && Inv(db)
      && o.Committed? && !CounterConsistent(o.db)
  {
    MoveExampleConsistent();
    var db := MoveExampleDb();
    var moved := MoveExamplePatch();
    assert ItemKeys([moved]) == [10];
    assert [moved][..0] == [];
    assert UpsertItemList(db.items, [moved]) == UpsertItem(db.items, moved);
    var u := Upserted(db, [], [], [moved]);
    assert u.items == map[10 := db.items[10].(minifigureId := 2)];
    assert !MissingMinifigure(u.minifigs, [moved]);
    assert EligibleRows(u, {10}) == {};
    var r := UpsertAll(db, [], [], [moved]).db;
    assert r.minifigs[2].numOfCollectedInventoryItems == 0;
    assert 10 in CollectedItemsOf(r.items, 2);
  }
}
