/** Rows of the three tables of the local catalogue store (Series, Minifigure,
    MinifigureInventoryItem), their column defaults, and the partial "patch" rows
    that a sync writes through an upsert.

    SQLite has no boolean type; the 0/1 integer columns are modelled as `bool`.
    Integer columns are unbounded `int`: nothing in the modelled code comes close
    to a 64-bit SQLite integer. */
module Records {

  /** Default of `Minifigure.inventorySize`: the size of the inventory is not known yet. */
  const UNKNOWN_INVENTORY_SIZE: int := -1

  /** A row that may be absent, or an operation that may fail. */
  datatype Option<T> = None | Some(value: T)

  // ---------------------------------------------------------------- Series

  datatype Series = Series(
    id: int,
    name: string,
    imageUrl: string,
    numOfMinifigs: int,
    releaseDate: string,
    favorite: bool,
    numOfMinifigsCollected: int,
    numOfMinifigsHidden: int)

  /** The columns of a series that a sync may write. */
  datatype PartialSeries = PartialSeries(
    id: int,
    name: string,
    imageUrl: string,
    numOfMinifigs: int,
    releaseDate: string)

  /** The patch columns of a stored series. */
  function SeriesPatchOf(s: Series): PartialSeries
  {
    PartialSeries(s.id, s.name, s.imageUrl, s.numOfMinifigs, s.releaseDate)
  }

  /** The columns that only the user and the update rules write. */
  predicate SameSeriesUserState(a: Series, b: Series)
  {
    && a.favorite == b.favorite
    && a.numOfMinifigsCollected == b.numOfMinifigsCollected
    && a.numOfMinifigsHidden == b.numOfMinifigsHidden
  }

  /** INSERT of a patch: every other column takes its declared default. */
  function NewSeries(p: PartialSeries): (s: Series)
    ensures SeriesPatchOf(s) == p
    ensures !s.favorite && s.numOfMinifigsCollected == 0 && s.numOfMinifigsHidden == 0
  {
    Series(p.id, p.name, p.imageUrl, p.numOfMinifigs, p.releaseDate, false, 0, 0)
  }

  /** UPDATE of a stored series from a patch: only the patch columns are written. */
  function PatchSeries(s: Series, p: PartialSeries): (r: Series)
    ensures SeriesPatchOf(r) == p
    ensures SameSeriesUserState(r, s)
  {
    s.(id := p.id, name := p.name, imageUrl := p.imageUrl, numOfMinifigs := p.numOfMinifigs,
       releaseDate := p.releaseDate)
  }

  // ---------------------------------------------------------------- Minifigure

  datatype Minifigure = Minifigure(
    id: int,
    name: string,
    imageUrl: string,
    positionInSeries: int,
    seriesId: int,
    collected: bool,
    wishListed: bool,
    favorite: bool,
    hidden: bool,
    numOfCollectedInventoryItems: int,
    inventorySize: int)

  /** The columns of a minifigure that a sync may write. */
  datatype PartialMinifigure = PartialMinifigure(
    id: int,
    name: string,
    imageUrl: string,
    positionInSeries: int,
    seriesId: int,
    inventorySize: int)

  function MinifigurePatchOf(m: Minifigure): PartialMinifigure
  {
    PartialMinifigure(m.id, m.name, m.imageUrl, m.positionInSeries, m.seriesId, m.inventorySize)
  }

  predicate SameMinifigureUserState(a: Minifigure, b: Minifigure)
  {
    && a.collected == b.collected
    && a.wishListed == b.wishListed
    && a.favorite == b.favorite
    && a.hidden == b.hidden
    && a.numOfCollectedInventoryItems == b.numOfCollectedInventoryItems
  }

  /** INSERT of a patch: flags false, no collected item, inventory size as sent. */
  function NewMinifigure(p: PartialMinifigure): (m: Minifigure)
    ensures MinifigurePatchOf(m) == p
    ensures !m.collected && !m.wishListed && !m.favorite && !m.hidden
    ensures m.numOfCollectedInventoryItems == 0
  {
    Minifigure(p.id, p.name, p.imageUrl, p.positionInSeries, p.seriesId,
               false, false, false, false, 0, p.inventorySize)
  }

  /** The row a schema migration gives an existing minifigure: the two columns added by the
      version 4 schema take their defaults (0 collected items, unknown inventory size). */
  function DefaultInventoryColumns(m: Minifigure): (r: Minifigure)
    ensures r.numOfCollectedInventoryItems == 0 && r.inventorySize == UNKNOWN_INVENTORY_SIZE
    ensures r.(numOfCollectedInventoryItems := m.numOfCollectedInventoryItems,
               inventorySize := m.inventorySize) == m
  {
    m.(numOfCollectedInventoryItems := 0, inventorySize := UNKNOWN_INVENTORY_SIZE)
  }

  function PatchMinifigure(m: Minifigure, p: PartialMinifigure): (r: Minifigure)
    ensures MinifigurePatchOf(r) == p
    ensures SameMinifigureUserState(r, m)
  {
    m.(id := p.id, name := p.name, imageUrl := p.imageUrl, positionInSeries := p.positionInSeries,
       seriesId := p.seriesId, inventorySize := p.inventorySize)
  }

  // ---------------------------------------------------------------- MinifigureInventoryItem

  datatype InventoryItem = InventoryItem(
    id: int,
    name: string,
    imageUrl: string,
    partUrl: string,
    quantity: int,
    itemType: string,
    minifigureId: int,
    collected: bool)

  /** The columns of an inventory item that a sync may write. */
  datatype PartialInventoryItem = PartialInventoryItem(
    id: int,
    name: string,
    imageUrl: string,
    partUrl: string,
    quantity: int,
    itemType: string,
    minifigureId: int)

  function ItemPatchOf(it: InventoryItem): PartialInventoryItem
  {
    PartialInventoryItem(it.id, it.name, it.imageUrl, it.partUrl, it.quantity, it.itemType, it.minifigureId)
  }

  /** INSERT of a patch: the item starts uncollected. */
  function NewItem(p: PartialInventoryItem): (it: InventoryItem)
    ensures ItemPatchOf(it) == p
    ensures !it.collected
  {
    InventoryItem(p.id, p.name, p.imageUrl, p.partUrl, p.quantity, p.itemType, p.minifigureId, false)
  }

  /** UPDATE from a patch never writes `collected`. */
  function PatchItem(it: InventoryItem, p: PartialInventoryItem): (r: InventoryItem)
    ensures ItemPatchOf(r) == p
    ensures r.collected == it.collected
  {
    it.(id := p.id, name := p.name, imageUrl := p.imageUrl, partUrl := p.partUrl,
        quantity := p.quantity, itemType := p.itemType, minifigureId := p.minifigureId)
  }
}
