/** The inventory-item toggle and the transaction that follows it with a resync of the
    minifigure's collected state. */
module ItemLemmas {
  import opened Records
  import opened Catalog
  import opened Rules
  import opened RuleLemmas
  import opened DaoLemmas

  /** toggleMinifigureInventoryItemCollectedState flips `collected` of exactly that item and
      reports one row; the counter rule moves its minifigure's counter by one in the same
      direction, so consistent counters stay consistent. An unknown id changes nothing. */
  lemma ToggleItemCollectedEffect(db: Db, itemId: int)
    ensures var u := ToggleItemCollected(db, itemId);
      && (itemId !in db.items ==> u == Updated(db, 0))
      && (itemId in db.items ==>
            var it := db.items[itemId];
            var mid := it.minifigureId;
            && u.rows == 1
            && u.db.items == db.items[itemId := it.(collected := !it.collected)]
            && u.db.series == db.series && u.db.minifigs.Keys == db.minifigs.Keys
            && (forall k :: k in db.minifigs && k != mid ==> u.db.minifigs[k] == db.minifigs[k])
            && (mid in db.minifigs ==>
                  u.db.minifigs[mid].numOfCollectedInventoryItems
                    == db.minifigs[mid].numOfCollectedInventoryItems + (if it.collected then -1 else 1)
                  && SameFlags(u.db.minifigs[mid], db.minifigs[mid])
                  && u.db.minifigs[mid].inventorySize == db.minifigs[mid].inventorySize)
            && CollectedItemsOf(u.db.items, mid)
                 == (if it.collected then CollectedItemsOf(db.items, mid) - {itemId}
                     else CollectedItemsOf(db.items, mid) + {itemId})
            && ItemsOf(u.db.items, mid) == ItemsOf(db.items, mid)
            && OnlyTouches(db, u.db, mid))
      && (CounterConsistent(db) ==> CounterConsistent(u.db))
  {
    if itemId in db.items {
      var u := ToggleItemCollected(db, itemId);
      var mid := db.items[itemId].minifigureId;
      assert OnlyTouches(db, u.db, mid);
      if CounterConsistent(db) {
        WriteItemCollectedConsistent(db, itemId, !db.items[itemId].collected);
      }
    }
  }

  /** keepMinifigureCollectedStateInSync: the row becomes collected exactly when its counter
      equals its inventory size, and wishlisted stays only while it is not collected; the
      rules it fires keep counters consistent and touch nothing but that minifigure. */
  lemma KeepCollectedInSyncEffect(db: Db, mid: int)
    ensures var r := KeepCollectedInSync(db, mid);
      && (mid !in db.minifigs ==> r == db)
      && (mid in db.minifigs ==>
            var m := db.minifigs[mid];
            var full := m.numOfCollectedInventoryItems == m.inventorySize;
            && r.minifigs[mid].collected == full
            && r.minifigs[mid].wishListed == (!full && m.wishListed)
            && r.minifigs[mid].favorite == m.favorite && r.minifigs[mid].hidden == m.hidden
            && MinifigurePatchOf(r.minifigs[mid]) == MinifigurePatchOf(m)
            && OnlyTouches(db, r, mid) && r.series == db.series
            && (full && !m.collected ==> CollectedItemsOf(r.items, mid) == ItemsOf(db.items, mid))
            && (!(full && !m.collected) ==> r.items == db.items))
      && (CounterConsistent(db) ==> CounterConsistent(r))
      && (MutuallyExclusive(db) ==> MutuallyExclusive(r))
      && (Inv(db) && VisibleOrAbsent(db, mid) ==> Inv(r))
  {
    if mid in db.minifigs {
      var m := db.minifigs[mid];
      var full := m.numOfCollectedInventoryItems == m.inventorySize;
      var w := m.(collected := full, wishListed := if full then false else m.wishListed);
      WriteMinifigureFrame(db, mid, w);
      if full && !m.collected {
        CollectRuleEffect(db, mid, w);
      } else if m.collected && !full {
        UncollectRuleEffect(db, mid, w);
      } else {
        NoRuleWithoutGuard(db, mid, w);
      }
      if CounterConsistent(db) {
        WriteMinifigureConsistent(db, mid, w);
      }
      if MutuallyExclusive(db) {
        WriteKeepsExclusive(db, mid, w);
      }
      if Inv(db) && VisibleOrAbsent(db, mid) {
        VisibleWriteKeepsInv(db, mid, w);
      }
    }
  }

  /** The transaction: when the item toggle matched no row nothing changes; otherwise the
      caller's minifigure becomes collected exactly when its counter, after the counter rule,
      equals its inventory size, and it stays wishlisted only while not collected. The three
      invariants are kept for callers acting on visible minifigures. */
  lemma ItemTransactionEffect(db: Db, itemId: int, mid: int)
    ensures var r := ToggleItemAndKeepInSync(db, itemId, mid);
      && (itemId !in db.items ==> r == db)
      && (itemId in db.items && mid in db.minifigs ==>
            var u := ToggleItemCollected(db, itemId).db;
            var full := u.minifigs[mid].numOfCollectedInventoryItems == u.minifigs[mid].inventorySize;
            && r.minifigs[mid].collected == full
            && r.minifigs[mid].wishListed == (!full && db.minifigs[mid].wishListed)
            && r.minifigs[mid].hidden == db.minifigs[mid].hidden
            && r.minifigs[mid].favorite == db.minifigs[mid].favorite)
      && (CounterConsistent(db) ==> CounterConsistent(r))
      && (MutuallyExclusive(db) ==> MutuallyExclusive(r))
      && (Inv(db) && VisibleOrAbsent(db, mid)
          && (itemId in db.items ==> VisibleOrAbsent(db, db.items[itemId].minifigureId))
          ==> Inv(r))
  {
    ItemTransactionFlags(db, itemId, mid);
    if CounterConsistent(db) {
      ItemTransactionCounter(db, itemId, mid);
    }
    if MutuallyExclusive(db) {
      ItemTransactionExclusive(db, itemId, mid);
    }
    if Inv(db) && VisibleOrAbsent(db, mid)
       && (itemId in db.items ==> VisibleOrAbsent(db, db.items[itemId].minifigureId)) {
      ItemTransactionInv(db, itemId, mid);
    }
  }

  lemma ItemTransactionFlags(db: Db, itemId: int, mid: int)
    ensures var r := ToggleItemAndKeepInSync(db, itemId, mid);
      && (itemId !in db.items ==> r == db)
      && (itemId in db.items && mid in db.minifigs ==>
            var u := ToggleItemCollected(db, itemId).db;
            var full := u.minifigs[mid].numOfCollectedInventoryItems == u.minifigs[mid].inventorySize;
            && r.minifigs[mid].collected == full
            && r.minifigs[mid].wishListed == (!full && db.minifigs[mid].wishListed)
            && r.minifigs[mid].hidden == db.minifigs[mid].hidden
            && r.minifigs[mid].favorite == db.minifigs[mid].favorite)
  {
  }

  lemma ItemTransactionCounter(db: Db, itemId: int, mid: int)
    requires CounterConsistent(db)
    ensures CounterConsistent(ToggleItemAndKeepInSync(db, itemId, mid))
  {
    ToggleItemCollectedEffect(db, itemId);
    if itemId in db.items {
      KeepCollectedInSyncEffect(ToggleItemCollected(db, itemId).db, mid);
    }
  }

  lemma ItemTransactionExclusive(db: Db, itemId: int, mid: int)
    requires MutuallyExclusive(db)
    ensures MutuallyExclusive(ToggleItemAndKeepInSync(db, itemId, mid))
  {
  }

  lemma ItemTransactionInv(db: Db, itemId: int, mid: int)
    requires Inv(db) && VisibleOrAbsent(db, mid)
    requires itemId in db.items ==> VisibleOrAbsent(db, db.items[itemId].minifigureId)
    ensures Inv(ToggleItemAndKeepInSync(db, itemId, mid))
  {
    ToggleItemCollectedEffect(db, itemId);
    if itemId in db.items {
      var u := ToggleItemCollected(db, itemId).db;
      var parent := db.items[itemId].minifigureId;
      KeepCollectedInSyncEffect(u, mid);
      forall k | k in u.minifigs && u.minifigs[k].hidden
        ensures CollectedItemsOf(u.items, k) == {}
      {
        OthersCollectedKept(db, u, parent, k);
      }
      assert Inv(u);
    }
  }

  /** Uncollecting one item of a fully collected minifigure uncollects the minifigure but
      leaves its other items collected: the counter is one short of the inventory size, so
      the clearing rule does not fire. */
  lemma UncollectOneOfComplete(db: Db, itemId: int)
    requires CounterConsistent(db) && itemId in db.items
    requires var mid := db.items[itemId].minifigureId;
      && mid in db.minifigs && db.minifigs[mid].collected
      && CollectedItemsOf(db.items, mid) == ItemsOf(db.items, mid)
      && db.minifigs[mid].numOfCollectedInventoryItems == db.minifigs[mid].inventorySize
    ensures var mid := db.items[itemId].minifigureId;
      var r := ToggleItemAndKeepInSync(db, itemId, mid);
      && !r.minifigs[mid].collected
      && CollectedItemsOf(r.items, mid) == ItemsOf(db.items, mid) - {itemId}
  {
    var mid := db.items[itemId].minifigureId;
    assert itemId in CollectedItemsOf(db.items, mid);
    ToggleItemCollectedEffect(db, itemId);
    var u := ToggleItemCollected(db, itemId).db;
    KeepCollectedInSyncEffect(u, mid);
  }

  // ------------------------------------------------ collecting an inventory item by item

  /** The transaction applied to the items `ids` in order, each time naming minifigure `mid`. */
  function ToggleItemsInOrder(db: Db, ids: seq<int>, mid: int): Db
    decreases |ids|
  {
    if ids == [] then db
    else ToggleItemAndKeepInSync(ToggleItemsInOrder(db, ids[..|ids| - 1], mid), ids[|ids| - 1], mid)
  }

  /** One toggle of the item-by-item collection: `x` is an uncollected item of `mid`, the
      items `done` are collected, and the minifigure is not. */
  lemma CollectStep(prev: Db, x: int, mid: int, done: set<int>)
    requires CounterConsistent(prev) && mid in prev.minifigs && !prev.minifigs[mid].collected
    requires CollectedItemsOf(prev.items, mid) == done
    requires x in ItemsOf(prev.items, mid) && x !in done
    requires |done| + 1 == prev.minifigs[mid].inventorySize ==> done + {x} == ItemsOf(prev.items, mid)
    ensures var r := ToggleItemAndKeepInSync(prev, x, mid);
      && mid in r.minifigs
      && r.minifigs[mid].collected == (|done| + 1 == prev.minifigs[mid].inventorySize)
      && CollectedItemsOf(r.items, mid) == done + {x}
      && CounterConsistent(r)
      && ItemsOf(r.items, mid) == ItemsOf(prev.items, mid)
      && r.minifigs[mid].inventorySize == prev.minifigs[mid].inventorySize
  {
    ToggleItemCollectedEffect(prev, x);
    var u := ToggleItemCollected(prev, x).db;
    assert u.minifigs[mid].numOfCollectedInventoryItems == |done| + 1;
    KeepCollectedInSyncEffect(u, mid);
  }

  /** A minifigure with none of its `n` items collected and inventory size `n`: collecting
      its items one at a time (listed without repetition in `ids`) leaves it uncollected
      until the n-th toggle and collected after it, with exactly the toggled items
      collected. */
  lemma {:induction false} CollectItemByItem(db: Db, ids: seq<int>, mid: int, k: nat)
    requires CounterConsistent(db) && mid in db.minifigs && !db.minifigs[mid].collected
    requires CollectedItemsOf(db.items, mid) == {}
    requires Distinct(ids)
    requires Elems(ids) == ItemsOf(db.items, mid)
    requires db.minifigs[mid].inventorySize == |ids| > 0
    requires k <= |ids|
    ensures var r := ToggleItemsInOrder(db, ids[..k], mid);
      && mid in r.minifigs
      && r.minifigs[mid].collected == (k == |ids|)
      && CollectedItemsOf(r.items, mid) == Elems(ids[..k])
      && CounterConsistent(r)
      && ItemsOf(r.items, mid) == ItemsOf(db.items, mid)
      && r.minifigs[mid].inventorySize == db.minifigs[mid].inventorySize
  {
    if k == 0 {
      assert ids[..0] == [];
    } else {
      CollectItemByItem(db, ids, mid, k - 1);
      var prev := ToggleItemsInOrder(db, ids[..k - 1], mid);
      var x := ids[k - 1];
      assert ids[..k][..k - 1] == ids[..k - 1];
      assert ToggleItemsInOrder(db, ids[..k], mid) == ToggleItemAndKeepInSync(prev, x, mid);
      assert x in Elems(ids);
      PrefixElems(ids, k);
      SeqSetCard(ids[..k - 1]);
      if k == |ids| {
        assert ids[..k] == ids;
      }
      CollectStep(prev, x, mid, Elems(ids[..k - 1]));
    }
  }

  /** Growing a prefix of a sequence without repetitions by one entry adds one new id. */
  lemma PrefixElems(s: seq<int>, k: nat)
    requires Distinct(s)
    requires 0 < k <= |s|
    ensures Elems(s[..k]) == Elems(s[..k - 1]) + {s[k - 1]}
    ensures s[k - 1] !in Elems(s[..k - 1])
    ensures Distinct(s[..k - 1])
  {
  }

  /** A sequence without repetitions has as many distinct elements as entries. */
  lemma {:induction false} SeqSetCard(s: seq<int>)
    requires Distinct(s)
    ensures |Elems(s)| == |s|
  {
    if s != [] {
      var t := s[..|s| - 1];
      PrefixElems(s, |s|);
      assert s[..|s|] == s;
      SeqSetCard(t);
    }
  }
}
