/** The schema migrations of the local catalogue store: the two seed migrations (version 1
    to 2 and 2 to 3) and the three migrations to version 4, which all run the same
    statement sequence. A database is modelled at the level the statements act on:
    tables of rows keyed by their integer primary key, with their columns, column
    defaults and AUTOINCREMENT counter, plus the indexes and triggers that exist. Each
    statement either succeeds or raises an SQL error, which aborts the migration. */
module Migrations {
  import opened Records

  // ------------------------------------------------ databases and statements

  datatype TableName = SeriesTable | MinifigureTable | InventoryItemTable

  /** The non-key columns of the three tables. */
  datatype Column =
    | Name | ImageUrl | NumOfMinifigs | ReleaseDate | Favorite | NumOfMinifigsCollected
    | NumOfMinifigsHidden | PositionInSeries | SeriesId | Collected | WishListed | Hidden
    | NumOfCollectedInventoryItems | InventorySize | PartUrl | Quantity | Type | MinifigureId

  /** The indexes; `InventoryItemMinifigureIdIndex` is
      index_MinifigureInventoryItem_minifigureId. */
  datatype IndexName =
    SeriesImageUrlIndex | MinifigureImageUrlIndex | MinifigureSeriesIdIndex | InventoryItemMinifigureIdIndex

  /** The triggers:
      - `OldHideTrigger`: updateNumOfMinifigsHiddenAndResetSomeStatesOfMinifig, the hide rule
        of versions 1 to 3;
      - `HideTrigger`:
        updateNumOfMinifigsHiddenAndResetStatesOfMinifigAndCollectedValuesOfInventoryItems;
      - `CountTrigger`: updateNumOfCollectedMinifigureInventoryItems;
      - `UncollectTrigger`: updateCollectedValuesOfMinifigureInventoryItemsToFalse;
      - `CollectTrigger`: updateCollectedValuesOfMinifigureInventoryItemsToTrue.
      Their bodies are given by the `Rules` module. */
  datatype TriggerName = OldHideTrigger | HideTrigger | CountTrigger | UncollectTrigger | CollectTrigger

  /** A column value; 0/1 flags are integers, as SQLite stores them. */
  datatype Value = Int(n: int) | Text(s: string)

  /** The non-key columns of one row. */
  type Row = map<Column, Value>

  /** A table with an `id INTEGER PRIMARY KEY AUTOINCREMENT` key. `unique` holds the
      columns with a UNIQUE index. `lastId` is the table's sqlite_sequence entry: the
      largest id handed out so far. */
  datatype Table = Table(columns: set<Column>, defaults: map<Column, Value>, unique: set<Column>,
                         rows: map<int, Row>, lastId: int)

  datatype SqlDb = SqlDb(tables: map<TableName, Table>, indexes: set<IndexName>,
                         triggers: set<TriggerName>)

  /** Every default belongs to a column, every row has exactly the table's columns, and no
      row's id is above the AUTOINCREMENT counter. */
  predicate ValidTable(t: Table)
  {
    && t.defaults.Keys <= t.columns
    && forall id :: id in t.rows ==> t.rows[id].Keys == t.columns && id <= t.lastId
  }

  predicate Valid(db: SqlDb)
  {
    forall name :: name in db.tables ==> ValidTable(db.tables[name])
  }

  datatype Statement =
    | AddColumn(table: TableName, column: Column, default: Value)
    | CreateTable(table: TableName, columns: set<Column>, defaults: map<Column, Value>)
    | CreateIndex(index: IndexName, table: TableName, column: Column)
    | DropTrigger(trigger: TriggerName)
    | CreateTrigger(trigger: TriggerName, table: TableName)
    | Insert(table: TableName, rows: seq<Row>)

  /** An INSERT row names only columns of the table, and every column without a default. */
  predicate ColumnsFit(t: Table, r: Row)
  {
    r.Keys <= t.columns && t.columns <= r.Keys + t.defaults.Keys
  }

  /** Two rows hold the same value in one of the `unique` columns. */
  predicate Clash(unique: set<Column>, a: Row, b: Row)
  {
    exists c :: c in unique && c in a && c in b && a[c] == b[c]
  }

  /** The row an INSERT of `r` stores clashes with no stored row on a UNIQUE index. */
  predicate UniqueFree(t: Table, r: Row)
  {
    forall id :: id in t.rows ==> !Clash(t.unique, t.rows[id], t.defaults + r)
  }

  /** An INSERT of `r` alone would succeed. */
  predicate Insertable(t: Table, r: Row)
  {
    ColumnsFit(t, r) && UniqueFree(t, r)
  }

  /** One row inserted with the next AUTOINCREMENT id; the columns it does not name take
      their defaults. */
  function InsertRow(t: Table, r: Row): Option<Table>
  {
    if Insertable(t, r) then Some(t.(rows := t.rows[t.lastId + 1 := t.defaults + r], lastId := t.lastId + 1))
    else None
  }

  /** A multi-row INSERT: the rows in order, all or none. */
  function InsertRows(t: Table, rs: seq<Row>): Option<Table>
    decreases |rs|
  {
    if rs == [] then Some(t)
    else match InsertRow(t, rs[0])
      case None => None
      case Some(t') => InsertRows(t', rs[1..])
  }

  /** ALTER TABLE ADD COLUMN with a DEFAULT: every existing row takes the default. */
  function WithColumn(t: Table, column: Column, default: Value): Table
  {
    Table(t.columns + {column}, t.defaults[column := default], t.unique,
          map id | id in t.rows :: t.rows[id][column := default], t.lastId)
  }

  /** execSQL of one statement: the new database, or `None` for an SQL error. */
  function Exec(db: SqlDb, st: Statement): Option<SqlDb>
  {
    match st
    case AddColumn(name, column, default) =>
      if name !in db.tables || column in db.tables[name].columns then None
      else Some(db.(tables := db.tables[name := WithColumn(db.tables[name], column, default)]))
    case CreateTable(name, columns, defaults) =>
      if name in db.tables then None
      else Some(db.(tables := db.tables[name := Table(columns, defaults, {}, map[], 0)]))
    case CreateIndex(index, table, column) =>
      if index in db.indexes || table !in db.tables || column !in db.tables[table].columns then None
      else Some(db.(indexes := db.indexes + {index}))
    case DropTrigger(trigger) =>
      if trigger !in db.triggers then None
      else Some(db.(triggers := db.triggers - {trigger}))
    case CreateTrigger(trigger, table) =>
      if trigger in db.triggers || table !in db.tables then None
      else Some(db.(triggers := db.triggers + {trigger}))
    case Insert(name, rows) =>
      if name !in db.tables then None
      else match InsertRows(db.tables[name], rows)
        case None => None
        case Some(t) => Some(db.(tables := db.tables[name := t]))
  }

  /** A sequence of statements run in order; the first error aborts the rest. */
  function Run(db: SqlDb, sts: seq<Statement>): Option<SqlDb>
    decreases |sts|
  {
    if sts == [] then Some(db)
    else match Exec(db, sts[0])
      case None => None
      case Some(db') => Run(db', sts[1..])
  }

  // ------------------------------------------------ the schema

  const SERIES_COLUMNS: set<Column> :=
    {Name, ImageUrl, NumOfMinifigs, ReleaseDate, Favorite, NumOfMinifigsCollected, NumOfMinifigsHidden}
  const SERIES_DEFAULTS: map<Column, Value> :=
    map[Favorite := Int(0), NumOfMinifigsCollected := Int(0), NumOfMinifigsHidden := Int(0)]

  /** The Minifigure columns of versions 1 to 3 (the three share one schema). */
  const LEGACY_MINIFIGURE_COLUMNS: set<Column> :=
    {Name, ImageUrl, PositionInSeries, SeriesId, Collected, WishListed, Favorite, Hidden}
  const LEGACY_MINIFIGURE_DEFAULTS: map<Column, Value> :=
    map[Collected := Int(0), WishListed := Int(0), Favorite := Int(0), Hidden := Int(0)]

  const ITEM_COLUMNS: set<Column> := {Name, ImageUrl, PartUrl, Quantity, Type, MinifigureId, Collected}
  const ITEM_DEFAULTS: map<Column, Value> := map[Collected := Int(0)]

  /** The triggers of a version 4 database. */
  const VERSION_4_TRIGGERS: set<TriggerName> := {HideTrigger, CountTrigger, UncollectTrigger, CollectTrigger}

  /** The Series and Minifigure tables of versions 1 to 3, as the seed migrations and the
      version 4 migration find them. */
  predicate LegacyTables(db: SqlDb)
  {
    && Valid(db)
    && SeriesTable in db.tables && MinifigureTable in db.tables
    && db.tables[SeriesTable].columns == SERIES_COLUMNS
    && db.tables[SeriesTable].defaults == SERIES_DEFAULTS
    && db.tables[MinifigureTable].columns == LEGACY_MINIFIGURE_COLUMNS
    && db.tables[MinifigureTable].defaults == LEGACY_MINIFIGURE_DEFAULTS
    && db.tables[SeriesTable].unique == {ImageUrl} && db.tables[MinifigureTable].unique == {ImageUrl}
  }

  /** A database at version 1, 2 or 3: no item table or index, and the old hide trigger
      (present in real databases although the exported schemas do not list it). */
  predicate Legacy(db: SqlDb)
  {
    && LegacyTables(db)
    && InventoryItemTable !in db.tables
    && InventoryItemMinifigureIdIndex !in db.indexes
    && db.triggers == {OldHideTrigger}
  }

  // ------------------------------------------------ the migrations

  datatype Migration = Migration1To2 | Migration2To3 | Migration1To4 | Migration2To4 | Migration3To4

  function StartVersion(m: Migration): int
  {
    match m
    case Migration1To2 => 1
    case Migration2To3 => 2
    case Migration1To4 => 1
    case Migration2To4 => 2
    case Migration3To4 => 3
  }

  function EndVersion(m: Migration): int
  {
    match m
    case Migration1To2 => 2
    case Migration2To3 => 3
    case _ => 4
  }

  /** applyMigrationToVersion4Schema, statement by statement. */
  const ADD_NUM_OF_COLLECTED_ITEMS: Statement := AddColumn(MinifigureTable, NumOfCollectedInventoryItems, Int(0))
  const ADD_INVENTORY_SIZE: Statement := AddColumn(MinifigureTable, InventorySize, Int(UNKNOWN_INVENTORY_SIZE))
  const CREATE_ITEM_TABLE: Statement := CreateTable(InventoryItemTable, ITEM_COLUMNS, ITEM_DEFAULTS)
  const CREATE_ITEM_INDEX: Statement := CreateIndex(InventoryItemMinifigureIdIndex, InventoryItemTable, MinifigureId)
  const DROP_OLD_HIDE_TRIGGER: Statement := DropTrigger(OldHideTrigger)
  const CREATE_HIDE_TRIGGER: Statement := CreateTrigger(HideTrigger, MinifigureTable)
  const CREATE_COUNT_TRIGGER: Statement := CreateTrigger(CountTrigger, InventoryItemTable)
  const CREATE_UNCOLLECT_TRIGGER: Statement := CreateTrigger(UncollectTrigger, MinifigureTable)
  const CREATE_COLLECT_TRIGGER: Statement := CreateTrigger(CollectTrigger, MinifigureTable)

  function Version4Statements(): seq<Statement>
  {
    [ADD_NUM_OF_COLLECTED_ITEMS, ADD_INVENTORY_SIZE, CREATE_ITEM_TABLE, CREATE_ITEM_INDEX,
     DROP_OLD_HIDE_TRIGGER, CREATE_HIDE_TRIGGER, CREATE_COUNT_TRIGGER, CREATE_UNCOLLECT_TRIGGER,
     CREATE_COLLECT_TRIGGER]
  }

  /** The image URLs of the seeded rows are not part of this model. Each row's URL is
      stood for by a placeholder made from the row's name, so that, like the real URLs,
      the placeholders of rows with different names differ. */
  function SeedImageUrl(name: string): (url: string)
    ensures |SEED_IMAGE_URL_PREFIX| <= |url| && url[|SEED_IMAGE_URL_PREFIX|..] == name
  {
    SEED_IMAGE_URL_PREFIX + name
  }

  const SEED_IMAGE_URL_PREFIX: string := "seed-image/"

  /** The seeded series row: the columns its INSERT names. */
  function SeriesSeed(name: string, numOfMinifigs: int, releaseDate: string): Row
  {
    map[Name := Text(name), ImageUrl := Text(SeedImageUrl(name)), NumOfMinifigs := Int(numOfMinifigs),
        ReleaseDate := Text(releaseDate)]
  }

  /** The seeded minifigure rows: the i-th name at position i + 1 of series `seriesId`. */
  function MinifigureSeeds(names: seq<string>, seriesId: int): seq<Row>
  {
    seq(|names|, i requires 0 <= i < |names| =>
      map[Name := Text(names[i]), ImageUrl := Text(SeedImageUrl(names[i])), PositionInSeries := Int(i + 1),
          SeriesId := Int(seriesId)])
  }

  const DUNGEONS_AND_DRAGONS: seq<string> :=
    ["Dwarf Barbarian", "Gith Warlock", "Tiefling Sorcerer", "Dragonborn Paladin",
     "Halfling Druid", "Aarakocra Ranger", "Mind Flayer", "Strahd von Zarovich", "Elf Bard",
     "The Lady of Pain", "Szass Tam", "Tasha the Witch Queen"]

  const SERIES_27: seq<string> :=
    ["Hamster Costume Fan", "Wolfpack Beastmaster", "Jetpack Racer", "Astronomer Kid",
     "Plush Toy Collector", "Pterodactyl Costume Fan", "Longboarder", "Bogeyman", "Cupid",
     "Pirate Quartermaster", "Cat Lover", "Steampunk Inventor"]

  /** A seed migration: the series row it inserts, and the minifigure names and the series
      id those minifigures are given. */
  predicate IsSeed(m: Migration)
  {
    m == Migration1To2 || m == Migration2To3
  }

  function SeedSeriesName(m: Migration): string
    requires IsSeed(m)
  {
    if m == Migration1To2 then "Dungeons & Dragons" else "Series 27"
  }

  function SeedSeries(m: Migration): Row
    requires IsSeed(m)
  {
    if m == Migration1To2 then SeriesSeed(SeedSeriesName(m), 12, "2024-09-01")
    else SeriesSeed(SeedSeriesName(m), 12, "2025-01-01")
  }

  function SeedNames(m: Migration): seq<string>
    requires IsSeed(m)
  {
    if m == Migration1To2 then DUNGEONS_AND_DRAGONS else SERIES_27
  }

  /** The hard-coded `seriesId` of the seeded minifigures. */
  function SeedSeriesId(m: Migration): int
    requires IsSeed(m)
  {
    if m == Migration1To2 then 46 else 47
  }

  /** The statements a migration executes. */
  function Statements(m: Migration): seq<Statement>
  {
    if IsSeed(m) then
      [Insert(SeriesTable, [SeedSeries(m)]), Insert(MinifigureTable, MinifigureSeeds(SeedNames(m), SeedSeriesId(m)))]
    else Version4Statements()
  }

  // ------------------------------------------------ the database object

  /** The database content after the first `k` statements of `sts`, or `None` once one
      of them has failed. */
  ghost function RunPrefix(d0: SqlDb, sts: seq<Statement>, k: nat): Option<SqlDb>
    requires k <= |sts|
  {
    if k == 0 then Some(d0)
    else match RunPrefix(d0, sts, k - 1)
      case None => None
      case Some(d) => Exec(d, sts[k - 1])
  }

  /** Running a sequence is running its first `k` statements and then the rest. */
  lemma {:induction false} RunSplits(d0: SqlDb, sts: seq<Statement>, k: nat)
    requires k <= |sts|
    ensures RunPrefix(d0, sts, k).None? ==> Run(d0, sts).None?
    ensures RunPrefix(d0, sts, k).Some? ==> Run(d0, sts) == Run(RunPrefix(d0, sts, k).value, sts[k..])
  {
    if k > 0 {
      RunSplits(d0, sts, k - 1);
      if RunPrefix(d0, sts, k - 1).Some? {
        assert sts[k - 1..][1..] == sts[k..];
      }
    }
  }

  /** The database handle a migration receives: execSQL runs one statement and raises on
      an SQL error, which aborts the migration. */
  class SqliteDatabase {
    var db: SqlDb

    constructor (db: SqlDb)
      ensures this.db == db
    {
      this.db := db;
    }

    method ExecSql(st: Statement) returns (ok: bool)
      modifies this
      ensures ok == Exec(old(db), st).Some?
      ensures db == if ok then Exec(old(db), st).value else old(db)
    {
      var r := Exec(db, st);
      if r.Some? {
        db := r.value;
        ok := true;
      } else {
        ok := false;
      }
    }

    /** execSQL of statement `k` of a sequence started from `d0`: the content after its
        first `k + 1` statements, or the failure of the whole sequence. */
    method ExecSqlOf(ghost d0: SqlDb, ghost sts: seq<Statement>, ghost k: nat, st: Statement)
      returns (ok: bool)
      requires k < |sts| && sts[k] == st
      requires RunPrefix(d0, sts, k) == Some(db)
      modifies this
      ensures ok ==> RunPrefix(d0, sts, k + 1) == Some(db)
      ensures !ok ==> Run(d0, sts).None?
    {
      ok := ExecSql(st);
      if !ok {
        RunSplits(d0, sts, k + 1);
      }
    }
  }

  /** `sts` is the statement sequence of applyMigrationToVersion4Schema. */
  predicate IsVersion4Statements(sts: seq<Statement>)
  {
    && |sts| == 9
    && sts[0] == ADD_NUM_OF_COLLECTED_ITEMS && sts[1] == ADD_INVENTORY_SIZE
    && sts[2] == CREATE_ITEM_TABLE && sts[3] == CREATE_ITEM_INDEX
    && sts[4] == DROP_OLD_HIDE_TRIGGER && sts[5] == CREATE_HIDE_TRIGGER
    && sts[6] == CREATE_COUNT_TRIGGER && sts[7] == CREATE_UNCOLLECT_TRIGGER
    && sts[8] == CREATE_COLLECT_TRIGGER
  }

  /** applyMigrationToVersion4Schema: the nine statements in order; the first error
      aborts the rest. `sts` names that sequence for the proof. */
  method ApplyMigrationToVersion4Schema(h: SqliteDatabase, ghost sts: seq<Statement>) returns (ok: bool)
    requires IsVersion4Statements(sts)
    modifies h
    ensures ok == Run(old(h.db), sts).Some?
    ensures ok ==> h.db == Run(old(h.db), sts).value
  {
    ghost var d0 := h.db;
    ok := h.ExecSqlOf(d0, sts, 0, ADD_NUM_OF_COLLECTED_ITEMS);
    if !ok {
      return;
    }
    ok := h.ExecSqlOf(d0, sts, 1, ADD_INVENTORY_SIZE);
    if !ok {
      return;
    }
    ok := h.ExecSqlOf(d0, sts, 2, CREATE_ITEM_TABLE);
    if !ok {
      return;
    }
    ok := h.ExecSqlOf(d0, sts, 3, CREATE_ITEM_INDEX);
    if !ok {
      return;
    }
    ok := h.ExecSqlOf(d0, sts, 4, DROP_OLD_HIDE_TRIGGER);
    if !ok {
      return;
    }
    ok := h.ExecSqlOf(d0, sts, 5, CREATE_HIDE_TRIGGER);
    if !ok {
      return;
    }
    ok := h.ExecSqlOf(d0, sts, 6, CREATE_COUNT_TRIGGER);
    if !ok {
      return;
    }
    ok := h.ExecSqlOf(d0, sts, 7, CREATE_UNCOLLECT_TRIGGER);
    if !ok {
      return;
    }
    ok := h.ExecSqlOf(d0, sts, 8, CREATE_COLLECT_TRIGGER);
    RunSplits(d0, sts, 9);
  }

  /** A migration object's migrate: the seed migrations run their two INSERTs, the three
      migrations to version 4 call applyMigrationToVersion4Schema. */
  method Migrate(m: Migration, h: SqliteDatabase) returns (ok: bool)
    modifies h
    ensures ok == Run(old(h.db), Statements(m)).Some?
    ensures ok ==> h.db == Run(old(h.db), Statements(m)).value
  {
    if IsSeed(m) {
      ghost var d0 := h.db;
      ghost var sts := Statements(m);
      ok := h.ExecSqlOf(d0, sts, 0, Insert(SeriesTable, [SeedSeries(m)]));
      if !ok {
        return;
      }
      ok := h.ExecSqlOf(d0, sts, 1, Insert(MinifigureTable, MinifigureSeeds(SeedNames(m), SeedSeriesId(m))));
      RunSplits(d0, sts, 2);
    } else {
      ok := ApplyMigrationToVersion4Schema(h, Version4Statements());
    }
  }

  // ------------------------------------------------ what the migrations do

  /** One inserted row keeps the table valid. */
  lemma InsertRowValid(t: Table, a: Row)
    requires ValidTable(t) && Insertable(t, a)
    ensures ValidTable(InsertRow(t, a).value)
  {
  }

  /** After inserting `a`, a row can be inserted exactly when it could be inserted before
      and does not clash with `a` on a UNIQUE column. */
  lemma InsertableAfter(t: Table, a: Row, r: Row)
    requires ValidTable(t) && Insertable(t, a)
    ensures Insertable(InsertRow(t, a).value, r) <==> Insertable(t, r) && !Clash(t.unique, t.defaults + a, t.defaults + r)
  {
    var t' := InsertRow(t, a).value;
    assert t.lastId + 1 !in t.rows;
    assert t'.rows.Keys == t.rows.Keys + {t.lastId + 1};
  }

  /** A multi-row INSERT into a valid table succeeds exactly when every row is insertable
      and no two of its rows clash on a UNIQUE column. */
  lemma {:induction false} InsertRowsSucceeds(t: Table, rs: seq<Row>)
    requires ValidTable(t)
    ensures InsertRows(t, rs).Some? <==>
      && (forall i :: 0 <= i < |rs| ==> Insertable(t, rs[i]))
      && (forall i, j :: 0 <= i < j < |rs| ==> !Clash(t.unique, t.defaults + rs[i], t.defaults + rs[j]))
    decreases |rs|
  {
    if rs != [] && Insertable(t, rs[0]) {
      var t' := InsertRow(t, rs[0]).value;
      InsertRowValid(t, rs[0]);
      InsertRowsSucceeds(t', rs[1..]);
      forall k | 0 <= k < |rs| - 1
        ensures Insertable(t', rs[1..][k]) <==> Insertable(t, rs[k + 1]) && !Clash(t.unique, t.defaults + rs[0], t.defaults + rs[k + 1])
      {
        InsertableAfter(t, rs[0], rs[k + 1]);
      }
      if InsertRows(t, rs).Some? {
        forall i, j | 0 <= i < j < |rs| ensures !Clash(t.unique, t.defaults + rs[i], t.defaults + rs[j]) {
          if i > 0 {
            assert rs[1..][i - 1] == rs[i] && rs[1..][j - 1] == rs[j];
          } else {
            assert rs[1..][j - 1] == rs[j];
          }
        }
      }
    }
  }

  /** A successful multi-row INSERT gives the i-th row the id lastId + 1 + i and the column
      defaults it does not name, moves the counter past them and leaves the existing rows
      alone. */
  lemma {:induction false} InsertRowsContents(t: Table, rs: seq<Row>)
    requires InsertRows(t, rs).Some?
    ensures var u := InsertRows(t, rs).value;
      && u.columns == t.columns && u.defaults == t.defaults && u.unique == t.unique
      && u.lastId == t.lastId + |rs|
      && (forall id :: id in u.rows <==> id in t.rows || t.lastId < id <= t.lastId + |rs|)
      && (forall i :: 0 <= i < |rs| ==> u.rows[t.lastId + 1 + i] == t.defaults + rs[i])
      && (forall id :: id in t.rows && id <= t.lastId ==> u.rows[id] == t.rows[id])
    decreases |rs|
  {
    if rs != [] {
      var t' := InsertRow(t, rs[0]).value;
      InsertRowsContents(t', rs[1..]);
      var u := InsertRows(t, rs).value;
      forall i | 0 < i < |rs| ensures u.rows[t.lastId + 1 + i] == t.defaults + rs[i] {
        assert rs[1..][i - 1] == rs[i];
      }
    }
  }

  /** A statement that cannot break `Valid`: a created table's defaults are its own columns. */
  predicate WellFormed(st: Statement)
  {
    st.CreateTable? ==> st.defaults.Keys <= st.columns
  }

  lemma WithColumnValid(t: Table, column: Column, default: Value)
    requires ValidTable(t)
    ensures ValidTable(WithColumn(t, column, default))
  {
  }

  lemma InsertRowsValid(t: Table, rs: seq<Row>)
    requires ValidTable(t) && InsertRows(t, rs).Some?
    ensures ValidTable(InsertRows(t, rs).value)
  {
    InsertRowsSucceeds(t, rs);
    InsertRowsContents(t, rs);
    var u := InsertRows(t, rs).value;
    forall id | id in u.rows ensures u.rows[id].Keys == u.columns && id <= u.lastId {
      if !(id in t.rows && id <= t.lastId) {
        var i := id - t.lastId - 1;
        assert u.rows[t.lastId + 1 + i] == t.defaults + rs[i];
      }
    }
  }

  /** Every successful well-formed statement keeps the database valid. */
  lemma ExecKeepsValid(db: SqlDb, st: Statement)
    requires Valid(db) && WellFormed(st) && Exec(db, st).Some?
    ensures Valid(Exec(db, st).value)
  {
    match st
    case AddColumn(name, column, default) =>
      WithColumnValid(db.tables[name], column, default);
    case Insert(name, rows) =>
      InsertRowsValid(db.tables[name], rows);
    case _ =>
  }

  /** A run of well-formed statements keeps the database valid. */
  lemma {:induction false} RunKeepsValid(db: SqlDb, sts: seq<Statement>)
    requires Valid(db) && (forall i :: 0 <= i < |sts| ==> WellFormed(sts[i])) && Run(db, sts).Some?
    ensures Valid(Run(db, sts).value)
    decreases |sts|
  {
    if sts != [] {
      ExecKeepsValid(db, sts[0]);
      RunKeepsValid(Exec(db, sts[0]).value, sts[1..]);
    }
  }

  /** The conditions under which every statement of the version 4 migration succeeds. */
  predicate Version4Applicable(db: SqlDb)
  {
    && MinifigureTable in db.tables
    && NumOfCollectedInventoryItems !in db.tables[MinifigureTable].columns
    && InventorySize !in db.tables[MinifigureTable].columns
    && InventoryItemTable !in db.tables
    && InventoryItemMinifigureIdIndex !in db.indexes
    && OldHideTrigger in db.triggers
    && HideTrigger !in db.triggers && CountTrigger !in db.triggers
    && UncollectTrigger !in db.triggers && CollectTrigger !in db.triggers
  }

  /** The version 4 migration's requirements on the tables and indexes, checked by its
      first four statements. */
  predicate Version4TablesApplicable(db: SqlDb)
  {
    && MinifigureTable in db.tables
    && NumOfCollectedInventoryItems !in db.tables[MinifigureTable].columns
    && InventorySize !in db.tables[MinifigureTable].columns
    && InventoryItemTable !in db.tables
    && InventoryItemMinifigureIdIndex !in db.indexes
  }

  /** The content after the first four statements: the two new Minifigure columns, the
      item table and its index. */
  ghost function Version4Tables(db: SqlDb): SqlDb
    requires MinifigureTable in db.tables
  {
    var minifigures := WithColumn(WithColumn(db.tables[MinifigureTable], NumOfCollectedInventoryItems, Int(0)),
                                  InventorySize, Int(UNKNOWN_INVENTORY_SIZE));
    SqlDb(db.tables[MinifigureTable := minifigures][InventoryItemTable := Table(ITEM_COLUMNS, ITEM_DEFAULTS, {}, map[], 0)],
          db.indexes + {InventoryItemMinifigureIdIndex},
          db.triggers)
  }

  /** The content after the version 4 migration of a database it applies to. */
  ghost function Version4Result(db: SqlDb): SqlDb
    requires MinifigureTable in db.tables
  {
    Version4Tables(db).(triggers := db.triggers - {OldHideTrigger} + VERSION_4_TRIGGERS)
  }

  /** Once a statement has failed, the prefix runs stay failed. */
  lemma {:induction false} PrefixStaysFailed(d0: SqlDb, sts: seq<Statement>, j: nat, k: nat)
    requires j <= k <= |sts| && RunPrefix(d0, sts, j).None?
    ensures RunPrefix(d0, sts, k).None?
    decreases k - j
  {
    if j < k {
      PrefixStaysFailed(d0, sts, j + 1, k);
    }
  }

  lemma Version4TablesPrefix(db: SqlDb, sts: seq<Statement>)
    requires IsVersion4Statements(sts)
    ensures RunPrefix(db, sts, 4) == if Version4TablesApplicable(db) then Some(Version4Tables(db)) else None
  {
    if MinifigureTable !in db.tables || NumOfCollectedInventoryItems in db.tables[MinifigureTable].columns {
      PrefixStaysFailed(db, sts, 1, 4);
      return;
    }
    var d1 := db.(tables := db.tables[MinifigureTable := WithColumn(db.tables[MinifigureTable], NumOfCollectedInventoryItems, Int(0))]);
    assert RunPrefix(db, sts, 1) == Some(d1);
    if InventorySize in db.tables[MinifigureTable].columns {
      PrefixStaysFailed(db, sts, 2, 4);
      return;
    }
    var d2 := d1.(tables := d1.tables[MinifigureTable := WithColumn(d1.tables[MinifigureTable], InventorySize, Int(UNKNOWN_INVENTORY_SIZE))]);
    assert RunPrefix(db, sts, 2) == Some(d2);
    if InventoryItemTable in db.tables {
      PrefixStaysFailed(db, sts, 3, 4);
      return;
    }
    var d3 := d2.(tables := d2.tables[InventoryItemTable := Table(ITEM_COLUMNS, ITEM_DEFAULTS, {}, map[], 0)]);
    assert RunPrefix(db, sts, 3) == Some(d3);
    if InventoryItemMinifigureIdIndex in db.indexes {
      assert RunPrefix(db, sts, 4).None?;
      return;
    }
    var d4 := d3.(indexes := d3.indexes + {InventoryItemMinifigureIdIndex});
    assert RunPrefix(db, sts, 4) == Some(d4);
    assert d4.tables == Version4Tables(db).tables;
  }

  lemma Version4Prefix(db: SqlDb, sts: seq<Statement>)
    requires IsVersion4Statements(sts)
    ensures RunPrefix(db, sts, 9) == if Version4Applicable(db) then Some(Version4Result(db)) else None
  {
    Version4TablesPrefix(db, sts);
    if !Version4TablesApplicable(db) {
      PrefixStaysFailed(db, sts, 4, 9);
      return;
    }
    var d4 := Version4Tables(db);
    if OldHideTrigger !in db.triggers {
      PrefixStaysFailed(db, sts, 5, 9);
      return;
    }
    var d5 := d4.(triggers := d4.triggers - {OldHideTrigger});
    assert RunPrefix(db, sts, 5) == Some(d5);
    if HideTrigger in db.triggers {
      PrefixStaysFailed(db, sts, 6, 9);
      return;
    }
    var d6 := d5.(triggers := d5.triggers + {HideTrigger});
    assert RunPrefix(db, sts, 6) == Some(d6);
    if CountTrigger in db.triggers {
      PrefixStaysFailed(db, sts, 7, 9);
      return;
    }
    var d7 := d6.(triggers := d6.triggers + {CountTrigger});
    assert RunPrefix(db, sts, 7) == Some(d7);
    if UncollectTrigger in db.triggers {
      PrefixStaysFailed(db, sts, 8, 9);
      return;
    }
    var d8 := d7.(triggers := d7.triggers + {UncollectTrigger});
    assert RunPrefix(db, sts, 8) == Some(d8);
    if CollectTrigger in db.triggers {
      assert RunPrefix(db, sts, 9).None?;
      return;
    }
    var d9 := d8.(triggers := d8.triggers + {CollectTrigger});
    assert RunPrefix(db, sts, 9) == Some(d9);
    assert d9.triggers == db.triggers - {OldHideTrigger} + VERSION_4_TRIGGERS;
  }

  /** Every migration to version 4 succeeds exactly on the databases that have the
      Minifigure table without the two new columns, no item table or index, the old hide
      trigger and none of the new ones; it then yields `Version4Result`. In particular the
      three migrations to version 4 reach the same end state from the same database. */
  lemma Version4SucceedsExactly(m: Migration, db: SqlDb)
    requires EndVersion(m) == 4
    ensures Run(db, Statements(m)).Some? <==> Version4Applicable(db)
    ensures Run(db, Statements(m)).Some? ==> Run(db, Statements(m)).value == Version4Result(db)
  {
    var sts := Version4Statements();
    Version4Prefix(db, sts);
    RunSplits(db, sts, 9);
    assert sts[9..] == [];
  }

  /** The version 4 migration applies to every version 1, 2 or 3 database. It adds
      `numOfCollectedInventoryItems` (default 0) and `inventorySize` (default -1) to every
      minifigure and changes nothing else in the Minifigure and Series rows, creates the
      empty item table and its index, and replaces the old hide trigger by the four version
      4 triggers. */
  lemma Version4ResultShape(db: SqlDb)
    requires Legacy(db)
    ensures Version4Applicable(db)
    ensures var v := Version4Result(db);
      var m0 := db.tables[MinifigureTable];
      && v.tables.Keys == db.tables.Keys + {InventoryItemTable}
      && (forall name :: name in db.tables && name != MinifigureTable ==> v.tables[name] == db.tables[name])
      && v.tables[MinifigureTable].columns == LEGACY_MINIFIGURE_COLUMNS + {NumOfCollectedInventoryItems, InventorySize}
      && v.tables[MinifigureTable].defaults
         == LEGACY_MINIFIGURE_DEFAULTS[NumOfCollectedInventoryItems := Int(0)][InventorySize := Int(UNKNOWN_INVENTORY_SIZE)]
      && v.tables[MinifigureTable].unique == m0.unique && v.tables[MinifigureTable].lastId == m0.lastId
      && v.tables[MinifigureTable].rows.Keys == m0.rows.Keys
      && (forall id :: id in m0.rows ==>
            v.tables[MinifigureTable].rows[id]
            == m0.rows[id][NumOfCollectedInventoryItems := Int(0)][InventorySize := Int(UNKNOWN_INVENTORY_SIZE)])
      && v.tables[InventoryItemTable] == Table(ITEM_COLUMNS, ITEM_DEFAULTS, {}, map[], 0)
      && v.indexes == db.indexes + {InventoryItemMinifigureIdIndex}
      && v.triggers == VERSION_4_TRIGGERS
  {
  }

  /** The version 4 migration keeps the database valid. */
  lemma Version4KeepsValid(db: SqlDb)
    requires Valid(db) && Version4Applicable(db)
    ensures Valid(Version4Result(db))
  {
  }

  /** The rows a seed migration appends: `seeds` inserted into `t0` gave `t`, keeping the
      columns, defaults and UNIQUE columns and the old rows and giving the i-th seed the id
      lastId + 1 + i. */
  ghost predicate Appended(t0: Table, t: Table, seeds: seq<Row>)
  {
    && t.columns == t0.columns && t.defaults == t0.defaults && t.unique == t0.unique
    && t.lastId == t0.lastId + |seeds|
    && (forall id :: id in t.rows <==> id in t0.rows || t0.lastId < id <= t.lastId)
    && (forall id :: id in t0.rows ==> t.rows[id] == t0.rows[id])
    && (forall i :: 0 <= i < |seeds| ==> t.rows[t0.lastId + 1 + i] == t0.defaults + seeds[i])
  }

  /** An INSERT into a valid table whose rows are all insertable and pairwise free of
      clashes on a UNIQUE column succeeds and appends them. */
  lemma InsertAppends(t0: Table, rs: seq<Row>)
    requires ValidTable(t0) && forall i :: 0 <= i < |rs| ==> Insertable(t0, rs[i])
    requires forall i, j :: 0 <= i < j < |rs| ==> !Clash(t0.unique, t0.defaults + rs[i], t0.defaults + rs[j])
    ensures InsertRows(t0, rs).Some? && Appended(t0, InsertRows(t0, rs).value, rs)
  {
    InsertRowsSucceeds(t0, rs);
    InsertedAppended(t0, rs);
  }

  /** A successful INSERT into a valid table appends its rows. */
  lemma InsertedAppended(t0: Table, rs: seq<Row>)
    requires ValidTable(t0) && InsertRows(t0, rs).Some?
    ensures Appended(t0, InsertRows(t0, rs).value, rs)
  {
    InsertRowsContents(t0, rs);
  }

  /** The two INSERTs of a seed migration, for any series row and minifigure rows: they
      succeed exactly when each succeeds on its own table, and then append their rows and
      change nothing else. */
  lemma SeedInsertsEffect(db: SqlDb, series: Row, minifigures: seq<Row>)
    requires Valid(db) && SeriesTable in db.tables && MinifigureTable in db.tables
    ensures var sts := [Insert(SeriesTable, [series]), Insert(MinifigureTable, minifigures)];
      Run(db, sts).Some?
      <==> InsertRows(db.tables[SeriesTable], [series]).Some? && InsertRows(db.tables[MinifigureTable], minifigures).Some?
    ensures var sts := [Insert(SeriesTable, [series]), Insert(MinifigureTable, minifigures)];
      Run(db, sts).Some? ==>
      && var v := Run(db, sts).value;
      && v.tables.Keys == db.tables.Keys && v.indexes == db.indexes && v.triggers == db.triggers
      && (forall name :: name in db.tables && name != SeriesTable && name != MinifigureTable ==>
            v.tables[name] == db.tables[name])
      && Appended(db.tables[SeriesTable], v.tables[SeriesTable], [series])
      && Appended(db.tables[MinifigureTable], v.tables[MinifigureTable], minifigures)
  {
    var s0 := db.tables[SeriesTable];
    var m0 := db.tables[MinifigureTable];
    SeedInsertsRun(db, series, minifigures);
    if InsertRows(s0, [series]).Some? && InsertRows(m0, minifigures).Some? {
      assert ValidTable(s0) && ValidTable(m0);
      InsertedAppended(s0, [series]);
      InsertedAppended(m0, minifigures);
    }
  }

  /** The two INSERTs of a seed migration, statement by statement. */
  lemma SeedInsertsRun(db: SqlDb, series: Row, minifigures: seq<Row>)
    requires SeriesTable in db.tables && MinifigureTable in db.tables
    ensures var s := InsertRows(db.tables[SeriesTable], [series]);
      var m := InsertRows(db.tables[MinifigureTable], minifigures);
      Run(db, [Insert(SeriesTable, [series]), Insert(MinifigureTable, minifigures)])
      == if s.None? || m.None? then None
         else Some(db.(tables := db.tables[SeriesTable := s.value][MinifigureTable := m.value]))
  {
    var sts := [Insert(SeriesTable, [series]), Insert(MinifigureTable, minifigures)];
    var s := InsertRows(db.tables[SeriesTable], [series]);
    var m := InsertRows(db.tables[MinifigureTable], minifigures);
    assert sts[1..] == [sts[1]] && sts[1..][1..] == [];
    if s.Some? {
      var d1 := db.(tables := db.tables[SeriesTable := s.value]);
      assert Exec(db, sts[0]) == Some(d1);
      assert d1.tables[MinifigureTable] == db.tables[MinifigureTable];
      assert Run(db, sts) == Run(d1, [sts[1]]);
    }
  }

  /** No stored row already holds the image URL of a row a seed migration inserts. */
  predicate SeedUrlsFree(m: Migration, db: SqlDb)
    requires IsSeed(m) && LegacyTables(db)
  {
    var series := db.tables[SeriesTable].rows;
    var minifigures := db.tables[MinifigureTable].rows;
    && (forall id :: id in series ==> series[id][ImageUrl] != Text(SeedImageUrl(SeedSeriesName(m))))
    && (forall id, i :: id in minifigures && 0 <= i < |SeedNames(m)| ==>
          minifigures[id][ImageUrl] != Text(SeedImageUrl(SeedNames(m)[i])))
  }

  /** On a table whose one UNIQUE column is `imageUrl`, a row naming an image URL can be
      stored exactly when no stored row holds that URL. */
  lemma UniqueFreeImageUrl(t: Table, r: Row)
    requires ValidTable(t) && t.unique == {ImageUrl} && ImageUrl in t.columns && ImageUrl in r
    ensures UniqueFree(t, r) <==> forall id :: id in t.rows ==> t.rows[id][ImageUrl] != r[ImageUrl]
  {
    if !UniqueFree(t, r) {
      var id :| id in t.rows && Clash(t.unique, t.rows[id], t.defaults + r);
      assert t.rows[id][ImageUrl] == r[ImageUrl];
    } else {
      forall id | id in t.rows ensures t.rows[id][ImageUrl] != r[ImageUrl] {
        assert !Clash(t.unique, t.rows[id], t.defaults + r);
        assert ImageUrl in t.rows[id] && ImageUrl in t.defaults + r;
      }
    }
  }

  /** The twelve minifigure names of each seed migration are distinct. */
  lemma SeedNamesDistinct(m: Migration)
    requires IsSeed(m)
    ensures forall i, j :: 0 <= i < j < |SeedNames(m)| ==> SeedNames(m)[i] != SeedNames(m)[j]
  {
  }

  /** A seed migration of a database with the version 1 to 3 Series and Minifigure tables
      succeeds exactly when no stored row already holds the image URL of one of the rows
      it inserts; the unique `imageUrl` indexes reject the INSERT otherwise. */
  lemma SeedSucceedsExactly(m: Migration, db: SqlDb)
    requires IsSeed(m) && LegacyTables(db)
    ensures Run(db, Statements(m)).Some? <==> SeedUrlsFree(m, db)
  {
    SeedInsertsEffect(db, SeedSeries(m), MinifigureSeeds(SeedNames(m), SeedSeriesId(m)));
    SeriesSeedSucceeds(m, db);
    MinifigureSeedsSucceed(m, db);
  }

  /** The series INSERT of a seed migration succeeds exactly when no stored series holds
      its image URL. */
  lemma SeriesSeedSucceeds(m: Migration, db: SqlDb)
    requires IsSeed(m) && LegacyTables(db)
    ensures var series := db.tables[SeriesTable].rows;
      InsertRows(db.tables[SeriesTable], [SeedSeries(m)]).Some?
      <==> forall id :: id in series ==> series[id][ImageUrl] != Text(SeedImageUrl(SeedSeriesName(m)))
  {
    InsertRowsSucceeds(db.tables[SeriesTable], [SeedSeries(m)]);
    UniqueFreeImageUrl(db.tables[SeriesTable], SeedSeries(m));
  }

  /** The minifigure INSERT of a seed migration succeeds exactly when no stored minifigure
      holds one of its image URLs. */
  lemma MinifigureSeedsSucceed(m: Migration, db: SqlDb)
    requires IsSeed(m) && LegacyTables(db)
    ensures var minifigures := db.tables[MinifigureTable].rows;
      InsertRows(db.tables[MinifigureTable], MinifigureSeeds(SeedNames(m), SeedSeriesId(m))).Some?
      <==> forall id, i :: id in minifigures && 0 <= i < |SeedNames(m)| ==>
             minifigures[id][ImageUrl] != Text(SeedImageUrl(SeedNames(m)[i]))
  {
    var m0 := db.tables[MinifigureTable];
    var seeds := MinifigureSeeds(SeedNames(m), SeedSeriesId(m));
    InsertRowsSucceeds(m0, seeds);
    SeedsDoNotClash(m, m0);
    forall i | 0 <= i < |seeds|
      ensures Insertable(m0, seeds[i]) <==> forall id :: id in m0.rows ==> m0.rows[id][ImageUrl] != Text(SeedImageUrl(SeedNames(m)[i]))
    {
      UniqueFreeImageUrl(m0, seeds[i]);
    }
  }

  /** No two minifigure rows of a seed migration clash on the image URL. */
  lemma SeedsDoNotClash(m: Migration, m0: Table)
    requires IsSeed(m) && m0.unique == {ImageUrl} && m0.defaults == LEGACY_MINIFIGURE_DEFAULTS
    ensures var seeds := MinifigureSeeds(SeedNames(m), SeedSeriesId(m));
      forall i, j :: 0 <= i < j < |seeds| ==> !Clash(m0.unique, m0.defaults + seeds[i], m0.defaults + seeds[j])
  {
    var names := SeedNames(m);
    var seeds := MinifigureSeeds(names, SeedSeriesId(m));
    SeedNamesDistinct(m);
    forall i, j | 0 <= i < j < |seeds| ensures !Clash(m0.unique, m0.defaults + seeds[i], m0.defaults + seeds[j]) {
      assert SeedImageUrl(names[i])[|SEED_IMAGE_URL_PREFIX|..] != SeedImageUrl(names[j])[|SEED_IMAGE_URL_PREFIX|..];
      assert (m0.defaults + seeds[i])[ImageUrl] == Text(SeedImageUrl(names[i]));
      assert (m0.defaults + seeds[j])[ImageUrl] == Text(SeedImageUrl(names[j]));
    }
  }

  /** A seed migration of a database with the version 1 to 3 Series and Minifigure tables
      and none of the image URLs it inserts succeeds. It appends its series row and its
      twelve minifigure rows, with the column defaults for what the INSERTs do not name,
      and changes nothing else. */
  lemma SeedEffect(m: Migration, db: SqlDb)
    requires IsSeed(m) && LegacyTables(db) && SeedUrlsFree(m, db)
    ensures Run(db, Statements(m)).Some?
    ensures var v := Run(db, Statements(m)).value;
      && v.tables.Keys == db.tables.Keys && v.indexes == db.indexes && v.triggers == db.triggers
      && (forall name :: name in db.tables && name != SeriesTable && name != MinifigureTable ==>
            v.tables[name] == db.tables[name])
      && Appended(db.tables[SeriesTable], v.tables[SeriesTable], [SeedSeries(m)])
      && Appended(db.tables[MinifigureTable], v.tables[MinifigureTable], MinifigureSeeds(SeedNames(m), SeedSeriesId(m)))
  {
    SeedSucceedsExactly(m, db);
    SeedInsertsEffect(db, SeedSeries(m), MinifigureSeeds(SeedNames(m), SeedSeriesId(m)));
  }

  /** The i-th seeded minifigure row as inserted: the seed name, position i + 1, the
      hard-coded series id, and the defaults for the flags. */
  lemma SeedRowContents(m: Migration, i: int)
    requires IsSeed(m) && 0 <= i < 12
    ensures |MinifigureSeeds(SeedNames(m), SeedSeriesId(m))| == 12
    ensures var r := LEGACY_MINIFIGURE_DEFAULTS + MinifigureSeeds(SeedNames(m), SeedSeriesId(m))[i];
      && r.Keys == LEGACY_MINIFIGURE_COLUMNS
      && r[Name] == Text(SeedNames(m)[i]) && r[PositionInSeries] == Int(i + 1)
      && r[SeriesId] == Int(SeedSeriesId(m))
      && r[Collected] == Int(0) && r[WishListed] == Int(0) && r[Favorite] == Int(0) && r[Hidden] == Int(0)
  {
  }

  /** The series id stored in row `id` of the Minifigure table, if there is one. */
  function SeriesIdOf(db: SqlDb, id: int): Option<int>
  {
    if MinifigureTable in db.tables && id in db.tables[MinifigureTable].rows
       && SeriesId in db.tables[MinifigureTable].rows[id] && db.tables[MinifigureTable].rows[id][SeriesId].Int?
    then Some(db.tables[MinifigureTable].rows[id][SeriesId].n)
    else None
  }

  /** The twelve minifigures a seed migration inserts reference the series row the same
      migration inserted exactly when the Series table's AUTOINCREMENT counter stood at the
      hard-coded series id minus one. */
  lemma SeedReferencesSeededSeries(m: Migration, db: SqlDb)
    requires IsSeed(m) && LegacyTables(db) && SeedUrlsFree(m, db)
    ensures Run(db, Statements(m)).Some?
    ensures var v := Run(db, Statements(m)).value;
      var seriesId := db.tables[SeriesTable].lastId + 1;
      var first := db.tables[MinifigureTable].lastId + 1;
      (forall id :: first <= id < first + 12 ==> SeriesIdOf(v, id) == Some(seriesId)) <==> seriesId == SeedSeriesId(m)
  {
    SeedEffect(m, db);
    var v := Run(db, Statements(m)).value;
    var m0 := db.tables[MinifigureTable];
    forall id | m0.lastId + 1 <= id < m0.lastId + 13 ensures SeriesIdOf(v, id) == Some(SeedSeriesId(m)) {
      SeededRowSeriesId(m, m0, v, id);
    }
    assert SeriesIdOf(v, m0.lastId + 1) == Some(SeedSeriesId(m));
  }

  lemma SeededRowSeriesId(m: Migration, m0: Table, v: SqlDb, id: int)
    requires IsSeed(m) && m0.defaults == LEGACY_MINIFIGURE_DEFAULTS && MinifigureTable in v.tables
    requires Appended(m0, v.tables[MinifigureTable], MinifigureSeeds(SeedNames(m), SeedSeriesId(m)))
    requires m0.lastId + 1 <= id < m0.lastId + 13
    ensures SeriesIdOf(v, id) == Some(SeedSeriesId(m))
  {
    var i := id - m0.lastId - 1;
    SeedRowContents(m, i);
    assert v.tables[MinifigureTable].rows[m0.lastId + 1 + i]
           == LEGACY_MINIFIGURE_DEFAULTS + MinifigureSeeds(SeedNames(m), SeedSeriesId(m))[i];
  }
}
