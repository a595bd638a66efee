# Local catalogue store of the Lego minifigures tracker

This project models the data core of an Android app that tracks a collection of Lego
minifigures. The app keeps a local SQLite catalogue behind Room. The catalogue has three
tables: Series, Minifigure and MinifigureInventoryItem (the parts a minifigure is built from).
The user marks minifigures collected, wishlisted, favorite or hidden, and marks single
inventory items collected. Four `AFTER UPDATE` triggers of the version 4 schema keep the
derived columns right:
- a hidden minifigure has its flags and its items cleared, and the series counts it as hidden;
- each minifigure counts its collected items;
- collecting a minifigure collects all its items;
- uncollecting a complete minifigure uncollects all its items.

A sync fetches series, minifigures and items changed since a watermark from a remote
catalogue. It maps the records to partial rows and merges them in one transaction
(`upsertAll`). The merge upserts by primary key, marks new items of collected minifigures as
collected in chunks below SQLite's bind limit, and rolls back entirely on a foreign-key
violation. The watermark advances only after a commit. Schema migrations bring version 1, 2
and 3 databases to version 4.

The model has the following parts:

| file | module | what it holds |
|---|---|---|
| `records.dfy` | `Records` | the rows, the partial rows a sync writes, and INSERT/UPDATE of a patch |
| `dto.dfy` | `Dto` | the remote records and their mapping to patches |
| `catalog.dfy` | `Catalog` | the store as a value (`Db`) and its invariants (foreign keys, counters, mutual exclusion of collected and wishlisted, reset of hidden rows) |
| `rules.dfy` | `Rules` | the end state and row count of every DAO update, with the triggers' cascade written out |
| `rule_lemmas.dfy`, `dao_lemmas.dfy`, `item_lemmas.dfy` | `RuleLemmas`, `DaoLemmas`, `ItemLemmas` | what the triggers and updates guarantee |
| `store.dfy` | `LocalStore` | class `Store`, whose three tables are fields; every update, the upsert row loops and the chunked collected pass are methods proved equal to the functions of `Rules` and `Merge` |
| `merge.dfy`, `merge_lemmas.dfy` | `Merge`, `MergeLemmas` | `upsertAll` on values and its properties |
| `views.dfy`, `view_lemmas.dfy` | `Views`, `ViewLemmas` | the read queries: filters, joins, ORDER BY, LIKE |
| `sync.dfy` | `Sync` | `syncData`, the use case and the app-state repository |
| `migrations.dfy` | `Migrations` | a small SQL database value, the statements the migrations run, and class `SqliteDatabase` that executes them |

The triggers are modelled by their effect, not parsed from SQL. In the source, a single
write never changes both `hidden` and `collected`, so at most one guarded rule fires per
write. The order in which SQLite fires triggers therefore never matters
(`Rules.WriteMinifigure` requires such a write).

The row counts are SQLite's: an UPDATE reports every row its WHERE clause matches. A toggle
reports 1 when the row exists and 0 otherwise. `unhideSeries` reports every minifigure of the
series.

Paths below are relative to `app/src/main/java/com/drsapps/trackerforlegominifiguresseries/`
of the repository. They are written out in full in the table.

## Model

| member | source | states |
|---|---|---|
| Records.NewSeries | app/src/main/java/com/drsapps/trackerforlegominifiguresseries/domain/model/Series.kt:21-47 | Inserting a partial series stores exactly its columns. `favorite` is false and both counters are 0 (the column defaults). |
| Records.PatchSeries | app/src/main/java/com/drsapps/trackerforlegominifiguresseries/domain/model/Series.kt:21-47 | Updating from a partial series writes its columns and keeps the favorite flag and both counters. |
| Records.NewMinifigure | app/src/main/java/com/drsapps/trackerforlegominifiguresseries/domain/model/Minifigure.kt:23-67 | Inserting a partial minifigure stores its columns, including `inventorySize`. All four flags are false and the collected-item counter is 0. |
| Records.PatchMinifigure | app/src/main/java/com/drsapps/trackerforlegominifiguresseries/domain/model/Minifigure.kt:23-67 | Updating from a partial minifigure writes its columns and keeps the four flags and the counter. |
| Records.DefaultInventoryColumns | app/src/main/java/com/drsapps/trackerforlegominifiguresseries/domain/model/Minifigure.kt:50-56 | A row that predates the inventory columns gets a counter of 0 and an inventory size of -1 (unknown). It is otherwise unchanged. |
| Records.NewItem | app/src/main/java/com/drsapps/trackerforlegominifiguresseries/domain/model/MinifigureInventoryItem.kt:21-57 | Inserting a partial item stores its columns and starts it uncollected. |
| Records.PatchItem | app/src/main/java/com/drsapps/trackerforlegominifiguresseries/domain/model/MinifigureInventoryItem.kt:21-57 | Updating from a partial item writes its columns and never writes `collected`. |
| Dto.ToPartialSeries | app/src/main/java/com/drsapps/trackerforlegominifiguresseries/data/remote/dto/SeriesDto.kt:16-24 | Every field is copied: the record is recovered from the patch. |
| Dto.ToPartialMinifigure | app/src/main/java/com/drsapps/trackerforlegominifiguresseries/data/remote/dto/MinifigureDto.kt:17-25 | Every field is copied, `inventorySize` included: the record is recovered from the patch. |
| Dto.ToPartialInventoryItem | app/src/main/java/com/drsapps/trackerforlegominifiguresseries/data/remote/dto/MinifigureInventoryItemDto.kt:20-30 | All fields except `setNum` and `rebrickableId` are copied. The record is recovered from the patch plus those two fields. |
| Dto.PatchesRoundTrip | app/src/main/java/com/drsapps/trackerforlegominifiguresseries/data/remote/dto/MinifigureInventoryItemDto.kt:8-30 | Each of the three mappings is onto: the patch built from a reconstructed record is the patch itself. |
| Dto.ItemMappingDropsOnlySetNumAndRebrickableId | app/src/main/java/com/drsapps/trackerforlegominifiguresseries/data/remote/dto/MinifigureInventoryItemDto.kt:20-30 | Two item records that differ only in `setNum` and `rebrickableId` map to the same patch. |
| RuleLemmas.SetItemRowsConsistent | app/src/main/java/com/drsapps/trackerforlegominifiguresseries/data/local/TrackerForLegoMinifiguresSeriesDatabase.kt:96-109 | An item UPDATE, each row followed by the counter trigger, keeps every minifigure's counter equal to its number of collected items. |
| RuleLemmas.WriteItemCollectedConsistent | app/src/main/java/com/drsapps/trackerforlegominifiguresseries/data/local/TrackerForLegoMinifiguresSeriesDatabase.kt:96-109 | A single item write with its counter trigger keeps every counter consistent. |
| RuleLemmas.SetItemRowsCollectedAt | app/src/main/java/com/drsapps/trackerforlegominifiguresseries/data/local/TrackerForLegoMinifiguresSeriesDatabase.kt:96-109 | After an item UPDATE on the rows of minifigure `mid`, the collected items of other minifigures are unchanged. Those of `mid` gain (or lose) exactly the rows whose value changed. |
| RuleLemmas.SetItemsCollectedEffect | app/src/main/java/com/drsapps/trackerforlegominifiguresseries/data/local/TrackerForLegoMinifiguresSeriesDatabase.kt:111-133 | After setting `collected` on all items of a minifigure, its collected items are all of them (true) or none (false). Under consistent counters, its counter says so and all counters stay consistent. |
| RuleLemmas.SetItemsCollectedIdempotent | app/src/main/java/com/drsapps/trackerforlegominifiguresseries/data/local/TrackerForLegoMinifiguresSeriesDatabase.kt:111-133 | Repeating the item UPDATE of the collect and uncollect triggers changes nothing. |
| RuleLemmas.HideCascade | app/src/main/java/com/drsapps/trackerforlegominifiguresseries/data/local/TrackerForLegoMinifiguresSeriesDatabase.kt:71-91 | Hiding a visible minifigure ends as follows: its series counts one more hidden minifigure, the row has its flags and counter reset, and its items are all uncollected. |
| RuleLemmas.HideRowsEffect | app/src/main/java/com/drsapps/trackerforlegominifiguresseries/data/local/TrackerForLegoMinifiguresSeriesDatabase.kt:71-91 | Hiding a set of visible minifigures of a series bumps the hidden counter by their number and resets each one and its items. Counters stay consistent and nothing else changes. |
| RuleLemmas.HideStep | app/src/main/java/com/drsapps/trackerforlegominifiguresseries/data/local/TrackerForLegoMinifiguresSeriesDatabase.kt:71-91 | Hiding one more visible row, after the rows already hidden, gives the closed form for the grown set. This holds in any order. |
| RuleLemmas.HideWriteIsHideRows | app/src/main/java/com/drsapps/trackerforlegominifiguresseries/data/local/TrackerForLegoMinifiguresSeriesDatabase.kt:71-91 | The hide write with its trigger cascade equals the closed form for that one row. |
| RuleLemmas.CollectRuleEffect | app/src/main/java/com/drsapps/trackerforlegominifiguresseries/data/local/TrackerForLegoMinifiguresSeriesDatabase.kt:123-133 | Collecting a minifigure collects every one of its items. Under consistent counters, its counter becomes its number of items. |
| RuleLemmas.UncollectRuleEffect | app/src/main/java/com/drsapps/trackerforlegominifiguresseries/data/local/TrackerForLegoMinifiguresSeriesDatabase.kt:111-122 | Uncollecting a minifigure clears all its items exactly when its counter equals its inventory size. Otherwise the items are left alone. |
| RuleLemmas.WriteMinifigureFrame | app/src/main/java/com/drsapps/trackerforlegominifiguresseries/data/local/TrackerForLegoMinifiguresSeriesDatabase.kt:71-133 | A minifigure write and the triggers it fires touch only that minifigure, its own items' `collected`, and its series' hidden counter. |
| RuleLemmas.NoRuleWithoutGuard | app/src/main/java/com/drsapps/trackerforlegominifiguresseries/data/local/TrackerForLegoMinifiguresSeriesDatabase.kt:71-133 | A write that changes neither `hidden` nor `collected` fires no trigger. |
| RuleLemmas.UnhideRunsNoRule | app/src/main/java/com/drsapps/trackerforlegominifiguresseries/data/local/TrackerForLegoMinifiguresSeriesDatabase.kt:71-91 | Clearing `hidden` fires no trigger, because the hide trigger's guard requires the new value to be 1. |
| DaoLemmas.ToggleCollectedEffect | app/src/main/java/com/drsapps/trackerforlegominifiguresseries/data/local/MinifigureDao.kt:141-150 | For a missing id: 0 rows and no change. Otherwise: 1 row, `collected` flipped, `wishListed` cleared, and the items and counter follow the collect or uncollect trigger. |
| DaoLemmas.ToggleWishlistedEffect | app/src/main/java/com/drsapps/trackerforlegominifiguresseries/data/local/MinifigureDao.kt:152-161 | For a missing id: 0 rows and no change. Otherwise: 1 row, `wishListed` flipped, `collected` cleared, and the uncollect trigger runs when it was collected. |
| DaoLemmas.ToggleFavoriteEffect | app/src/main/java/com/drsapps/trackerforlegominifiguresseries/data/local/MinifigureDao.kt:163-171 | Flips `favorite` of the one row and changes nothing else. The row count is 1 exactly when the id exists. |
| DaoLemmas.ToggleFavoriteTwice | app/src/main/java/com/drsapps/trackerforlegominifiguresseries/data/local/MinifigureDao.kt:163-171 | Toggling the favorite flag twice restores the store. |
| DaoLemmas.ToggleHiddenEffect | app/src/main/java/com/drsapps/trackerforlegominifiguresseries/data/local/MinifigureDao.kt:173-182 | Hiding a visible row is the hide cascade on that row. Unhiding a hidden row only clears `hidden`. A missing id gives 0 rows and no change. |
| DaoLemmas.HideSeriesEffect | app/src/main/java/com/drsapps/trackerforlegominifiguresseries/data/local/MinifigureDao.kt:196-202 | hideSeries hides exactly the visible minifigures of the series and reports how many there were. The series keeps the same members and none stays visible. Every other row is unchanged, a second call matches no row, and the invariants are kept. |
| DaoLemmas.UnhideSeriesEffect | app/src/main/java/com/drsapps/trackerforlegominifiguresseries/data/local/MinifigureDao.kt:204-209 | unhideSeries makes every minifigure of the series visible and reports their total. Nothing else changes. |
| DaoLemmas.SetSeriesFavoriteEffect | app/src/main/java/com/drsapps/trackerforlegominifiguresseries/data/local/SeriesDao.kt:58-59 | setSeriesFavoriteState sets the flag of that one series only, and repeating the call changes nothing. |
| DaoLemmas.HideRowsKeepsInv | app/src/main/java/com/drsapps/trackerforlegominifiguresseries/data/local/MinifigureDao.kt:196-202 | Hiding visible rows keeps consistent counters, mutual exclusion, and the reset of hidden rows. |
| DaoLemmas.UnhideRowsKeepsInv | app/src/main/java/com/drsapps/trackerforlegominifiguresseries/data/local/MinifigureDao.kt:204-209 | Unhiding keeps the three invariants. |
| DaoLemmas.VisibleWriteKeepsInv | app/src/main/java/com/drsapps/trackerforlegominifiguresseries/data/local/MinifigureDao.kt:141-171 | A toggle of a visible row that does not make it both collected and wishlisted keeps the three invariants. |
| ItemLemmas.ToggleItemCollectedEffect | app/src/main/java/com/drsapps/trackerforlegominifiguresseries/data/local/MinifigureInventoryItemDao.kt:24-32 | Flips `collected` of exactly that item, moves its minifigure's counter by one, and reports 1. A missing item gives 0 rows and no change. |
| ItemLemmas.KeepCollectedInSyncEffect | app/src/main/java/com/drsapps/trackerforlegominifiguresseries/data/local/MinifigureInventoryItemDao.kt:43-55 | The minifigure becomes collected exactly when its counter equals its inventory size, and becoming collected clears `wishListed`. |
| ItemLemmas.ItemTransactionEffect | app/src/main/java/com/drsapps/trackerforlegominifiguresseries/data/local/MinifigureInventoryItemDao.kt:57-68 | When the toggle matches no row the transaction changes nothing. Otherwise it is the toggle followed by the resync. |
| ItemLemmas.ItemTransactionInv | app/src/main/java/com/drsapps/trackerforlegominifiguresseries/data/local/MinifigureInventoryItemDao.kt:57-68 | On visible minifigures the transaction keeps the three invariants. |
| ItemLemmas.UncollectOneOfComplete | app/src/main/java/com/drsapps/trackerforlegominifiguresseries/data/local/MinifigureInventoryItemDao.kt:57-68 | Uncollecting one item of a complete minifigure uncollects the minifigure and keeps its other items collected. |
| ItemLemmas.CollectItemByItem | app/src/main/java/com/drsapps/trackerforlegominifiguresseries/data/local/MinifigureInventoryItemDao.kt:57-68 | Collecting a minifigure's items one by one keeps it uncollected until the last item, which makes it collected. |
| Merge.UpsertSeriesListEffect | app/src/main/java/com/drsapps/trackerforlegominifiguresseries/data/local/UpsertDao.kt:41-42 | After the series upsert, the table has the old keys plus the listed ids. Each listed id holds its last patch over the stored row. Unlisted rows are unchanged. |
| Merge.UpsertMinifigureListEffect | app/src/main/java/com/drsapps/trackerforlegominifiguresseries/data/local/UpsertDao.kt:44-45 | The same for minifigures: a stored row keeps its flags and counter. |
| Merge.UpsertItemListEffect | app/src/main/java/com/drsapps/trackerforlegominifiguresseries/data/local/UpsertDao.kt:47-48 | The same for items: a stored item keeps its `collected`. |
| Merge.UpsertItemListFixpoint | app/src/main/java/com/drsapps/trackerforlegominifiguresseries/data/local/UpsertDao.kt:47-48 | Upserting patches the rows already carry changes nothing. |
| Merge.MarkRowsEffect | app/src/main/java/com/drsapps/trackerforlegominifiguresseries/data/local/UpsertDao.kt:50-58 | The collected pass adds exactly the marked items of each minifigure to its collected items, and its counter grows by the number it changed. |
| Merge.MarkRowsCompose | app/src/main/java/com/drsapps/trackerforlegominifiguresseries/data/local/UpsertDao.kt:31-38 | Two passes in a row are one pass over the union of their rows, so splitting the ids into chunks does not change the result. |
| Merge.MarkRowsIdle | app/src/main/java/com/drsapps/trackerforlegominifiguresseries/data/local/UpsertDao.kt:50-58 | Marking items that are already collected changes nothing. |
| Merge.Chunked | app/src/main/java/com/drsapps/trackerforlegominifiguresseries/data/local/UpsertDao.kt:31-38 | Kotlin's `chunked`: the chunks concatenate back to the list, each is non-empty and at most the chunk size, and all but the last are full. |
| Merge.ChunkedAtBindLimit | app/src/main/java/com/drsapps/trackerforlegominifiguresseries/data/local/UpsertDao.kt:61-62 | With the bind limit of 999, 1500 ids make two UPDATEs, of 999 and 501 ids. |
| MergeLemmas.UpsertAllRollsBack | app/src/main/java/com/drsapps/trackerforlegominifiguresseries/data/local/UpsertDao.kt:17-39 | upsertAll rolls back exactly when some minifigure patch names a series, or some item patch names a minifigure, that neither the store nor the batch holds. |
| MergeLemmas.CommittedState | app/src/main/java/com/drsapps/trackerforlegominifiguresseries/data/local/UpsertDao.kt:17-39 | A committed merge is the collected pass over the upserted tables, and every patch's parent exists after the upserts. |
| MergeLemmas.UpsertAllEffect | app/src/main/java/com/drsapps/trackerforlegominifiguresseries/data/local/UpsertDao.kt:17-39 | A committed merge ends as follows:<br>- series as upserted;<br>- each listed minifigure holds its last patch, and every minifigure keeps its flags (new ones false);<br>- each batch item holds its last patch and is collected when it was or its minifigure is;<br>- every other item is untouched;<br>- with no item patches, no pass runs. |
| MergeLemmas.UpsertAllKeepsForeignKeys | app/src/main/java/com/drsapps/trackerforlegominifiguresseries/data/local/UpsertDao.kt:17-39 | A committed merge keeps both foreign keys. |
| MergeLemmas.UpsertAllKeepsInv | app/src/main/java/com/drsapps/trackerforlegominifiguresseries/data/local/UpsertDao.kt:17-39 | A committed merge keeps foreign keys, counters, mutual exclusion and the reset of hidden rows, provided no stored item changes minifigure. |
| MergeLemmas.UpsertAllIdempotent | app/src/main/java/com/drsapps/trackerforlegominifiguresseries/data/local/UpsertDao.kt:17-39 | Merging the same batch again commits the same state. |
| MergeLemmas.LateInventoryCounted | app/src/main/java/com/drsapps/trackerforlegominifiguresseries/data/local/UpsertDao.kt:17-58 | Items that arrive for a collected and complete minifigure are marked collected. It stays complete and its counter grows by the number of new items. |
| MergeLemmas.ItemMoveBreaksCounter | app/src/main/java/com/drsapps/trackerforlegominifiguresseries/data/local/UpsertDao.kt:17-48 | There is a consistent store in which an item patch that moves a collected item to another minifigure commits inconsistent counters. |
| LocalStore.Store.ToggleCollected | app/src/main/java/com/drsapps/trackerforlegominifiguresseries/data/local/MinifigureDao.kt:141-150 | The new tables and the returned row count are those of `Rules.ToggleCollected`, with the triggers run on the fields. |
| LocalStore.Store.ToggleWishlisted | app/src/main/java/com/drsapps/trackerforlegominifiguresseries/data/local/MinifigureDao.kt:152-161 | New tables and row count as `Rules.ToggleWishlisted`. |
| LocalStore.Store.ToggleFavorite | app/src/main/java/com/drsapps/trackerforlegominifiguresseries/data/local/MinifigureDao.kt:163-171 | New tables and row count as `Rules.ToggleFavorite`. |
| LocalStore.Store.ToggleHidden | app/src/main/java/com/drsapps/trackerforlegominifiguresseries/data/local/MinifigureDao.kt:173-182 | New tables and row count as `Rules.ToggleHidden`. |
| LocalStore.Store.HideSeries | app/src/main/java/com/drsapps/trackerforlegominifiguresseries/data/local/MinifigureDao.kt:196-202 | Writing the rows one at a time, each with its trigger cascade, ends in `Rules.HideSeries` with the number of visible rows as the count. |
| LocalStore.Store.UnhideSeries | app/src/main/java/com/drsapps/trackerforlegominifiguresseries/data/local/MinifigureDao.kt:204-209 | The row loop ends in `Rules.UnhideSeries` and reports every minifigure of the series. |
| LocalStore.Store.ToggleItemCollected | app/src/main/java/com/drsapps/trackerforlegominifiguresseries/data/local/MinifigureInventoryItemDao.kt:24-32 | New tables and row count as `Rules.ToggleItemCollected`. |
| LocalStore.Store.KeepCollectedInSync | app/src/main/java/com/drsapps/trackerforlegominifiguresseries/data/local/MinifigureInventoryItemDao.kt:43-55 | New tables as `Rules.KeepCollectedInSync`. |
| LocalStore.Store.ToggleItemAndKeepInSync | app/src/main/java/com/drsapps/trackerforlegominifiguresseries/data/local/MinifigureInventoryItemDao.kt:57-68 | The resync runs only when the toggle matched a row. The new tables are those of `Rules.ToggleItemAndKeepInSync`. |
| LocalStore.Store.SetSeriesFavoriteState | app/src/main/java/com/drsapps/trackerforlegominifiguresseries/data/local/SeriesDao.kt:58-59 | New tables as `Rules.SetSeriesFavorite`. |
| LocalStore.Store.UpsertAll | app/src/main/java/com/drsapps/trackerforlegominifiguresseries/data/local/UpsertDao.kt:17-39 | The result is `true` exactly when `Merge.UpsertAll` commits, and the tables are then its state. On a foreign-key violation the tables are restored to the state before the transaction. |
| LocalStore.Store.UpsertSeriesRows | app/src/main/java/com/drsapps/trackerforlegominifiguresseries/data/local/UpsertDao.kt:41-42 | The row-by-row upsert equals `Merge.UpsertSeriesList` and leaves the other tables alone. |
| LocalStore.Store.UpsertMinifigureRows | app/src/main/java/com/drsapps/trackerforlegominifiguresseries/data/local/UpsertDao.kt:44-45 | The row-by-row upsert fails exactly when a patch names a missing series. Otherwise it equals `Merge.UpsertMinifigureList`. |
| LocalStore.Store.UpsertItemRows | app/src/main/java/com/drsapps/trackerforlegominifiguresseries/data/local/UpsertDao.kt:47-48 | The row-by-row upsert fails exactly when a patch names a missing minifigure. Otherwise it equals `Merge.UpsertItemList`. |
| LocalStore.Store.ApplyCollectedStatusInChunks | app/src/main/java/com/drsapps/trackerforlegominifiguresseries/data/local/UpsertDao.kt:31-38 | The passes over the chunks of at most 999 ids end where one pass over all the ids would. |
| LocalStore.Store.ApplyCollectedStatusToItems | app/src/main/java/com/drsapps/trackerforlegominifiguresseries/data/local/UpsertDao.kt:50-58 | One UPDATE marks collected the listed items of collected minifigures, each row followed by the counter trigger. The result is `Merge.ApplyCollectedStatus`. |
| LocalStore.ChunkedPassEnds | app/src/main/java/com/drsapps/trackerforlegominifiguresseries/data/local/UpsertDao.kt:31-38 | Before any chunk the state is the starting one. After all chunks it equals one pass over the concatenated ids. |
| Views.Sort | app/src/main/java/com/drsapps/trackerforlegominifiguresseries/data/local/MinifigureDao.kt:14-28 | A listing holds each id of the set once, in ORDER BY order with the id breaking ties. |
| Views.RowBeforeTotal | app/src/main/java/com/drsapps/trackerforlegominifiguresseries/data/local/MinifigureDao.kt:14-28 | The listing order leaves no two rows unordered. `RowBeforeTransitive` proves it transitive and `TextLessTransitive` does the same for the BINARY collation of the dates. |
| Views.MinifigureListing | app/src/main/java/com/drsapps/trackerforlegominifiguresseries/data/local/MinifigureDao.kt:14-113 | The five minifigure listings hold exactly the joined rows that satisfy their WHERE clause, each once, with the newest series first and then by position. |
| Views.GetMinifigure | app/src/main/java/com/drsapps/trackerforlegominifiguresseries/data/local/MinifigureDao.kt:115-124 | There is a row exactly when the minifigure and its series exist. It carries the minifigure's id, name, image URL, collected, wish-listed and favorite columns and the series name, whether the minifigure is hidden or not. |
| Views.SeriesMinifigures | app/src/main/java/com/drsapps/trackerforlegominifiguresseries/data/local/MinifigureDao.kt:126-139 | All, or only the visible, minifigures of the series, each once, by position. |
| Views.InventoryItems | app/src/main/java/com/drsapps/trackerforlegominifiguresseries/data/local/MinifigureInventoryItemDao.kt:15-20 | Exactly the items of the minifigure, each once. |
| Views.SeriesListing | app/src/main/java/com/drsapps/trackerforlegominifiguresseries/data/local/SeriesDao.kt:14-46 | The series listings hold exactly the series that satisfy their WHERE clause, each once, newest first. |
| Views.SearchMinifigures | app/src/main/java/com/drsapps/trackerforlegominifiguresseries/data/local/MinifigureDao.kt:184-194 | The visible joined rows whose name is LIKE `%query%`, each once, with the oldest series first. |
| Views.SearchSeries | app/src/main/java/com/drsapps/trackerforlegominifiguresseries/data/local/SeriesDao.kt:61-68 | The visible series whose name is LIKE `%query%`, each once, oldest first. |
| Views.LikeContains | app/src/main/java/com/drsapps/trackerforlegominifiguresseries/data/local/MinifigureDao.kt:184-194 | For a query without `%` or `_`, the search pattern matches exactly the names that contain the query, ignoring ASCII case. |
| Views.LikePrefix | app/src/main/java/com/drsapps/trackerforlegominifiguresseries/data/local/SeriesDao.kt:61-68 | A wildcard-free text followed by `%` matches exactly the texts that start with it, ignoring ASCII case. |
| ViewLemmas.CollectedUncollectedPartition | app/src/main/java/com/drsapps/trackerforlegominifiguresseries/data/local/MinifigureDao.kt:51-113 | The collected and uncollected listings are disjoint and lie within the visible one. They cover it exactly when no visible row is both collected and wishlisted. |
| ViewLemmas.CollectedUncollectedSplitVisible | app/src/main/java/com/drsapps/trackerforlegominifiguresseries/data/local/MinifigureDao.kt:51-113 | When no row is both collected and wishlisted, the collected and uncollected listings together are exactly the visible listing. |
| ViewLemmas.ExtraConditionsRedundant | app/src/main/java/com/drsapps/trackerforlegominifiguresseries/data/local/MinifigureDao.kt:30-95 | Under the invariants the triggers keep, the favorite, collected and wishlisted listings hold exactly the joined rows with that flag. |
| ViewLemmas.ListingsNest | app/src/main/java/com/drsapps/trackerforlegominifiguresseries/data/local/MinifigureDao.kt:30-113 | Wishlisted rows are all listed as uncollected. Favorite and collected rows are all visible. |
| ViewLemmas.SeriesListingsPartition | app/src/main/java/com/drsapps/trackerforlegominifiguresseries/data/local/SeriesDao.kt:14-82 | The completed and uncompleted series split the visible ones, and favorites lie within them. The all-series listing holds every series. |
| ViewLemmas.SearchMinifiguresFindsSubstrings | app/src/main/java/com/drsapps/trackerforlegominifiguresseries/data/local/MinifigureDao.kt:184-194 | For a query without wildcards, the minifigure search lists the visible joined rows whose name contains the query, ignoring case. |
| ViewLemmas.SearchSeriesFindsSubstrings | app/src/main/java/com/drsapps/trackerforlegominifiguresseries/data/local/SeriesDao.kt:61-68 | The same for series. |
| ViewLemmas.HiddenSeriesLeavesListings | app/src/main/java/com/drsapps/trackerforlegominifiguresseries/data/local/MinifigureDao.kt:196-202 | After hideSeries, no listing shows a minifigure of the series, and the all-minifigures listing of the series keeps the same rows. |
| ViewLemmas.UnhiddenSeriesListed | app/src/main/java/com/drsapps/trackerforlegominifiguresseries/data/local/MinifigureDao.kt:204-209 | After unhideSeries, the visible listing of the series holds all its minifigures. |
| Sync.MapSeries | app/src/main/java/com/drsapps/trackerforlegominifiguresseries/data/repository/SyncRepositoryImpl.kt:84-93 | The mapped list has the body's length, and each patch recovers its record. |
| Sync.MapItems | app/src/main/java/com/drsapps/trackerforlegominifiguresseries/data/repository/SyncRepositoryImpl.kt:84-93 | The mapped item list has the body's length, and each patch recovers its record up to the two dropped fields. |
| Sync.Decide | app/src/main/java/com/drsapps/trackerforlegominifiguresseries/data/repository/SyncRepositoryImpl.kt:45-122 | The sync decides as follows:<br>- skip exactly when the re-read watermark is past the caller's timestamp;<br>- otherwise, a thrown exception fails with its message;<br>- a non-successful response fails with the network-response message;<br>- three empty bodies mean nothing new;<br>- otherwise the mapped lists are saved. |
| Sync.Carry | app/src/main/java/com/drsapps/trackerforlegominifiguresseries/data/repository/SyncRepositoryImpl.kt:74-122 | A failure leaves the store and the watermark alone, and only a success changes the store. The watermark stays or becomes `now`. A rolled-back upsertAll is the generic failure. |
| Sync.SkipOnlyWhenAhead | app/src/main/java/com/drsapps/trackerforlegominifiguresseries/data/repository/SyncRepositoryImpl.kt:45-48 | With the watermark not ahead of the timestamp, the sync acts on the responses exactly as with equal timestamps. |
| Sync.FetchesUseCallerTimestamp | app/src/main/java/com/drsapps/trackerforlegominifiguresseries/data/repository/SyncRepositoryImpl.kt:56-63 | The outcome depends on the catalogue only through its answers at the caller's timestamp. |
| Sync.EmptyBodiesMoveOnlyWatermark | app/src/main/java/com/drsapps/trackerforlegominifiguresseries/data/repository/SyncRepositoryImpl.kt:74-82 | Three empty bodies give NoNewData, move the watermark to `now`, and leave the store alone. |
| Sync.SuccessIsCommittedUpsert | app/src/main/java/com/drsapps/trackerforlegominifiguresseries/data/repository/SyncRepositoryImpl.kt:96-105 | The result is Success exactly when there is data and upsertAll commits. The store is then the committed state and the watermark is `now`. |
| Sync.ExceptionsBecomeFailures | app/src/main/java/com/drsapps/trackerforlegominifiguresseries/data/repository/SyncRepositoryImpl.kt:107-122 | Each exception kind gives its own failure message and leaves the store and the watermark alone. |
| Sync.SequentialCallsNeverSkip | app/src/main/java/com/drsapps/trackerforlegominifiguresseries/domain/use_case/SyncDataUseCase.kt:11-19 | Through the use case the skip branch is never taken. A call after a successful one queries the catalogue with the earlier call's `now`. |
| Sync.AppStateRepository.UpdateLastFetchedTimestamp | app/src/main/java/com/drsapps/trackerforlegominifiguresseries/data/repository/AppStateRepositoryImpl.kt:41-50 | Only the watermark changes. |
| Sync.SyncRepository.SyncData | app/src/main/java/com/drsapps/trackerforlegominifiguresseries/data/repository/SyncRepositoryImpl.kt:39-125 | The result, the new store and the new watermark are those of `Synced`. The watermark is written only after a commit or when the bodies are empty. |
| Sync.SyncDataUseCase.Invoke | app/src/main/java/com/drsapps/trackerforlegominifiguresseries/domain/use_case/SyncDataUseCase.kt:11-19 | syncData with the watermark just read. The result, store and watermark are those of `SyncedByUseCase`. |
| Migrations.SqliteDatabase.ExecSql | app/src/main/java/com/drsapps/trackerforlegominifiguresseries/data/local/TrackerForLegoMinifiguresSeriesDatabase.kt:30-134 | A statement either succeeds with its effect or fails and leaves the database unchanged. |
| Migrations.ApplyMigrationToVersion4Schema | app/src/main/java/com/drsapps/trackerforlegominifiguresseries/data/local/TrackerForLegoMinifiguresSeriesDatabase.kt:30-134 | Running the nine statements in order succeeds exactly when the sequence does, and then ends in its result. |
| Migrations.Migrate | app/src/main/java/com/drsapps/trackerforlegominifiguresseries/data/local/TrackerForLegoMinifiguresSeriesDatabase.kt:136-202 | Each of the five migrations runs its statements. It succeeds exactly when they do, and ends in their result. |
| Migrations.Version4SucceedsExactly | app/src/main/java/com/drsapps/trackerforlegominifiguresseries/data/local/TrackerForLegoMinifiguresSeriesDatabase.kt:186-202 | The three migrations to version 4 succeed exactly on the databases the statements apply to, and all end in the same result. |
| Migrations.Version4ResultShape | app/src/main/java/com/drsapps/trackerforlegominifiguresseries/data/local/TrackerForLegoMinifiguresSeriesDatabase.kt:30-134 | On every version 1 to 3 database the migration adds the counter (0) and inventory size (-1) to each minifigure and changes nothing else in the old tables. It creates the empty item table and its index, and replaces the old hide trigger with the four new ones. |
| Migrations.Version4KeepsValid | app/src/main/java/com/drsapps/trackerforlegominifiguresseries/data/local/TrackerForLegoMinifiguresSeriesDatabase.kt:30-134 | The version 4 migration keeps every row holding exactly its table's columns. |
| Migrations.RunKeepsValid | app/src/main/java/com/drsapps/trackerforlegominifiguresseries/data/local/TrackerForLegoMinifiguresSeriesDatabase.kt:30-202 | Well-formed statements that all succeed keep the database valid. |
| Migrations.InsertRowsSucceeds | app/src/main/java/com/drsapps/trackerforlegominifiguresseries/data/local/TrackerForLegoMinifiguresSeriesDatabase.kt:136-184 | A multi-row INSERT into a valid table succeeds exactly when every row names only the table's columns, covers every column without a default, and clashes with no stored row on a UNIQUE column, and no two of its rows clash with each other. |
| Migrations.InsertAppends | app/src/main/java/com/drsapps/trackerforlegominifiguresseries/data/local/TrackerForLegoMinifiguresSeriesDatabase.kt:136-184 | An INSERT into a valid table whose rows are all insertable and do not clash with each other succeeds. It appends the rows with consecutive new ids and keeps the stored rows. |
| Migrations.InsertableAfter | app/src/main/java/com/drsapps/trackerforlegominifiguresseries/data/local/TrackerForLegoMinifiguresSeriesDatabase.kt:136-184 | After one row is inserted, a further row can be inserted exactly when it could be before and does not repeat the first row's value in a UNIQUE column. |
| Migrations.UniqueFreeImageUrl | app/src/main/java/com/drsapps/trackerforlegominifiguresseries/domain/model/Series.kt:22 | On a table whose only UNIQUE index is on `imageUrl`, a row can be stored exactly when no stored row has the same image URL. |
| Migrations.SeedSucceedsExactly | app/src/main/java/com/drsapps/trackerforlegominifiguresseries/data/local/TrackerForLegoMinifiguresSeriesDatabase.kt:136-184 | Migrations 1→2 and 2→3 succeed exactly when no stored series or minifigure already has the image URL of a row they insert. The unique `imageUrl` indexes of Series and Minifigure reject the INSERT otherwise. |
| Migrations.SeedsDoNotClash | app/src/main/java/com/drsapps/trackerforlegominifiguresseries/data/local/TrackerForLegoMinifiguresSeriesDatabase.kt:140-157 | The twelve minifigure rows of one seed INSERT never clash with each other on the image URL. |
| Migrations.SeedEffect | app/src/main/java/com/drsapps/trackerforlegominifiguresseries/data/local/TrackerForLegoMinifiguresSeriesDatabase.kt:136-184 | When no stored row has one of their image URLs, migrations 1→2 and 2→3 succeed. Each appends its series row and its twelve minifigure rows, with defaults for the other columns, and changes nothing else. |
| Migrations.SeedRowContents | app/src/main/java/com/drsapps/trackerforlegominifiguresseries/data/local/TrackerForLegoMinifiguresSeriesDatabase.kt:136-184 | The i-th seeded minifigure has its name, position i + 1, the hard-coded series id, and cleared flags. |
| Migrations.SeedReferencesSeededSeries | app/src/main/java/com/drsapps/trackerforlegominifiguresseries/data/local/TrackerForLegoMinifiguresSeriesDatabase.kt:136-184 | In a seed migration that succeeds, the seeded minifigures reference the seeded series exactly when the Series AUTOINCREMENT counter stood one below the hard-coded id. |

## Left out

- User interface, ViewModels and paging are not part of this model. The searches return a whole listing and not pages.
- Coroutines, Flow, Room's threading and any concurrent access are left out. Each DAO call is one atomic step on the store.
- The network (Retrofit) is a parameter: a function from a timestamp to each response. The `Instant` from `Clock.System.now()` (app/src/main/java/com/drsapps/trackerforlegominifiguresseries/data/repository/SyncRepositoryImpl.kt:53), taken just before the fetches, is the parameter `now`. Instants are integers, and the ISO-8601 text `lastFetchedTimestamp.toString()` sent to the API (SyncRepositoryImpl.kt:56-58) is modelled as the integer itself.
- The DataStore behind the app state is a field of `AppStateRepository`. Dependency injection, WorkManager and logging are left out.
- Sync.FirstThrown: when several of the three concurrent fetches throw, the exception that propagates depends on timing. The model takes the first in await order (series, minifigures, items).
- Sync.SyncRepository.SyncData: a `CancellationException` is rethrown in the source. Cancellation is not modelled.
- Sync.AppStateRepository.UpdateLastFetchedTimestamp: a failing DataStore write is caught and logged in the source. The model's write always succeeds.
- Unique `imageUrl` indexes in the DAO model: an upsert whose image URL collides with another row's is not modelled, and upserts conflict on the primary key only. The migration model enforces these indexes on INSERT.
- `Series.numOfMinifigsCollected` is carried as a column but not maintained. The earlier schema's triggers that may write it, or decrement `numOfMinifigsHidden` on unhide, are not part of this model. Only the version 4 triggers are modelled.
- The ON DELETE/ON UPDATE CASCADE actions of the foreign keys are left out: no modelled operation deletes a row or changes an id.
- The triggers are given by their effect in `Rules`, not parsed from the `CREATE TRIGGER` text. Migrations record which triggers exist by name.
- MergeLemmas.UpsertAllKeepsInv requires that no batch item moves a stored item to another minifigure. `MergeLemmas.ItemMoveBreaksCounter` shows that the counters can break without it, because no trigger watches `minifigureId`.
- ViewLemmas.SearchMinifiguresFindsSubstrings and ViewLemmas.SearchSeriesFindsSubstrings assume a query without `%` or `_`. With wildcards the searches still follow `Views.Like`, but the substring reading does not hold.
- Views.Sort: rows that tie on every ORDER BY key are ordered by id. SQLite leaves that order unspecified.
- `getSeriesImageUrl`, `getSeriesFavoriteState`, `getHiddenStateOfAllSeries` and `getIdAndNameOfAllSeries` are projections of the series listing (`AllSeries`) or a single series row and have no separate member.
- Migrations.Migrate: a failed migration leaves the database as it stood at the failing statement. SQLite's rollback of the whole migration transaction and Room's choice of migration path are left out.
- Foreign-key enforcement during migrations is left out, as is the SQL parser: statements are a small datatype. The seed rows' image URLs are placeholders built from each row's name. Like the real URLs, they differ from row to row.
