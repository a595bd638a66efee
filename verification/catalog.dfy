/** The content of the local catalogue store as a value: its three tables keyed by
    primary key, and the invariants the update rules and the data-access updates keep. */
module Catalog {
  import opened Records

  datatype Db = Db(
    series: map<int, Series>,
    minifigs: map<int, Minifigure>,
    items: map<int, InventoryItem>)

  /** Ids of the inventory items that belong to minifigure `mid`. */
  function ItemsOf(items: map<int, InventoryItem>, mid: int): set<int>
  {
    set id | id in items && items[id].minifigureId == mid
  }

  /** Ids of the collected inventory items of minifigure `mid`. */
  function CollectedItemsOf(items: map<int, InventoryItem>, mid: int): set<int>
  {
    set id | id in items && items[id].minifigureId == mid && items[id].collected
  }

  /** Ids of the minifigures of series `sid`. */
  function MinifigsOf(minifigs: map<int, Minifigure>, sid: int): set<int>
  {
    set id | id in minifigs && minifigs[id].seriesId == sid
  }

  /** Ids of the minifigures of series `sid` that are not hidden. */
  function VisibleOf(minifigs: map<int, Minifigure>, sid: int): set<int>
  {
    set id | id in minifigs && minifigs[id].seriesId == sid && !minifigs[id].hidden
  }

  /** Foreign keys (Minifigure.seriesId -> Series.id, MinifigureInventoryItem.minifigureId ->
      Minifigure.id): every child row references a stored parent. */
  ghost predicate ForeignKeysHold(db: Db)
  {
    && (forall id :: id in db.minifigs ==> db.minifigs[id].seriesId in db.series)
    && (forall id :: id in db.items ==> db.items[id].minifigureId in db.minifigs)
  }

  /** `numOfCollectedInventoryItems` counts the collected items of the minifigure. */
  ghost predicate CounterConsistent(db: Db)
  {
    forall mid :: mid in db.minifigs ==>
      db.minifigs[mid].numOfCollectedInventoryItems == |CollectedItemsOf(db.items, mid)|
  }

  /** No minifigure is both collected and wishlisted. */
  ghost predicate MutuallyExclusive(db: Db)
  {
    forall mid :: mid in db.minifigs ==> !(db.minifigs[mid].collected && db.minifigs[mid].wishListed)
  }

  /** A hidden minifigure has its user flags cleared, no collected item, and a zero counter. */
  ghost predicate HiddenReset(db: Db)
  {
    forall mid :: mid in db.minifigs && db.minifigs[mid].hidden ==>
      && !db.minifigs[mid].collected
      && !db.minifigs[mid].wishListed
      && !db.minifigs[mid].favorite
      && db.minifigs[mid].numOfCollectedInventoryItems == 0
      && CollectedItemsOf(db.items, mid) == {}
  }

  /** The ids listed in `s`. */
  function Elems(s: seq<int>): set<int>
  {
    set i | i in s
  }

  /** No id is listed twice. */
  predicate Distinct(s: seq<int>)
  {
    forall i, j :: 0 <= i < j < |s| ==> s[i] != s[j]
  }
}
