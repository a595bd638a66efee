/** The records the remote catalogue sends, and their mapping to the patch rows that
    the merge writes. Each mapping is total: it validates nothing (a negative count or
    an unknown item type passes through unchanged). */
module Dto {
  import opened Records

  datatype SeriesDto = SeriesDto(
    id: int,
    name: string,
    imageUrl: string,
    numOfMinifigs: int,
    releaseDate: string)

  datatype MinifigureDto = MinifigureDto(
    id: int,
    name: string,
    imageUrl: string,
    positionInSeries: int,
    seriesId: int,
    inventorySize: int)

  datatype InventoryItemDto = InventoryItemDto(
    id: int,
    name: string,
    imageUrl: string,
    partUrl: string,
    minifigureId: int,
    quantity: int,
    itemType: string,
    setNum: string,
    rebrickableId: int)

  /** Reference reconstruction of a series record from its patch (the inverse mapping). */
  function SeriesDtoOf(p: PartialSeries): SeriesDto
  {
    SeriesDto(p.id, p.name, p.imageUrl, p.numOfMinifigs, p.releaseDate)
  }

  /** `toPartialSeries`: every field is copied, so the record is recoverable from the patch. */
  function ToPartialSeries(d: SeriesDto): (p: PartialSeries)
    ensures SeriesDtoOf(p) == d
  {
    PartialSeries(d.id, d.name, d.imageUrl, d.numOfMinifigs, d.releaseDate)
  }

  function MinifigureDtoOf(p: PartialMinifigure): MinifigureDto
  {
    MinifigureDto(p.id, p.name, p.imageUrl, p.positionInSeries, p.seriesId, p.inventorySize)
  }

  /** `toPartialMinifigure`: every field is copied, `inventorySize` included. */
  function ToPartialMinifigure(d: MinifigureDto): (p: PartialMinifigure)
    ensures MinifigureDtoOf(p) == d
  {
    PartialMinifigure(d.id, d.name, d.imageUrl, d.positionInSeries, d.seriesId, d.inventorySize)
  }

  /** Rebuilds an item record from its patch and the two fields the patch does not carry. */
  function InventoryItemDtoOf(p: PartialInventoryItem, setNum: string, rebrickableId: int): InventoryItemDto
  {
    InventoryItemDto(p.id, p.name, p.imageUrl, p.partUrl, p.minifigureId, p.quantity, p.itemType,
                     setNum, rebrickableId)
  }

  /** `toPartialMinifigureInventoryItem`: every field but `setNum` and `rebrickableId` is copied. */
  function ToPartialInventoryItem(d: InventoryItemDto): (p: PartialInventoryItem)
    ensures InventoryItemDtoOf(p, d.setNum, d.rebrickableId) == d
  {
    PartialInventoryItem(d.id, d.name, d.imageUrl, d.partUrl, d.quantity, d.itemType, d.minifigureId)
  }

  /** The mappings lose nothing a patch can hold: they are onto, with the reconstructions as
      right inverses. */
  lemma PatchesRoundTrip(ps: PartialSeries, pm: PartialMinifigure, pi: PartialInventoryItem,
                         setNum: string, rebrickableId: int)
    ensures ToPartialSeries(SeriesDtoOf(ps)) == ps
    ensures ToPartialMinifigure(MinifigureDtoOf(pm)) == pm
    ensures ToPartialInventoryItem(InventoryItemDtoOf(pi, setNum, rebrickableId)) == pi
  {
  }

  /** `setNum` and `rebrickableId` are dropped: two item records that differ only there
      give the same patch, and records that differ elsewhere give different patches. */
  lemma ItemMappingDropsOnlySetNumAndRebrickableId(a: InventoryItemDto, b: InventoryItemDto)
    ensures ToPartialInventoryItem(a) == ToPartialInventoryItem(b)
        <==> a.(setNum := b.setNum, rebrickableId := b.rebrickableId) == b
  {
  }
}
