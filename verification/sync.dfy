/** The sync: fetch what the remote catalogue changed since the watermark, save it with
    upsertAll, and move the watermark to the time the fetch started. The branch taken is a
    pure decision over the re-read watermark and the three responses (`Decide`); its
    effects on the store and on the app state are given by `Synced`, and the repository
    and use-case methods are proved to produce exactly those effects. */
module Sync {
  import opened Records
  import opened Catalog
  import opened Dto
  import Merge
  import LocalStore

  // ------------------------------------------------ results and inputs

  /** The state a sync reports to the screens. */
  datatype SyncState = Loading | Success | NoNewData | Failure(message: string)

  /** The exceptions syncData tells apart; every other one is `OtherException`. */
  datatype ExceptionKind = UnknownHost | SocketTimeout | OtherException

  /** One awaited request: a successful response with a body, a response that is
      unsuccessful or has no body, or a thrown exception. */
  datatype Response<T> = Ok(body: seq<T>) | BadResponse | Thrown(kind: ExceptionKind)

  /** The three endpoints of the remote catalogue, each queried with a timestamp. */
  datatype Api = Api(
    series: int -> Response<SeriesDto>,
    minifigures: int -> Response<MinifigureDto>,
    items: int -> Response<InventoryItemDto>)

  /** The part of the persisted app state the sync reads and writes. */
  datatype AppState = AppState(lastFetchedTimestamp: int)

  /** The watermark before any sync: the epoch (0 ms), which the remote catalogue accepts. */
  const EPOCH: int := 0

  const NETWORK_RESPONSE_ERROR: string := "Network response error"

  /** The failure message for a thrown exception. */
  function ExceptionMessage(k: ExceptionKind): string
  {
    match k
    case UnknownHost => "No internet connection"
    case SocketTimeout => "Connection timeout - please try again"
    case OtherException => "Sync failed. Please check your internet."
  }

  // ------------------------------------------------ the mappings of the three bodies

  /** `body.map { it.toPartialSeries() }` */
  function MapSeries(ds: seq<SeriesDto>): (ps: seq<PartialSeries>)
    ensures |ps| == |ds|
    ensures forall i :: 0 <= i < |ds| ==> SeriesDtoOf(ps[i]) == ds[i]
  {
    if ds == [] then [] else [ToPartialSeries(ds[0])] + MapSeries(ds[1..])
  }

  /** `body.map { it.toPartialMinifigure() }` */
  function MapMinifigures(ds: seq<MinifigureDto>): (ps: seq<PartialMinifigure>)
    ensures |ps| == |ds|
    ensures forall i :: 0 <= i < |ds| ==> MinifigureDtoOf(ps[i]) == ds[i]
  {
    if ds == [] then [] else [ToPartialMinifigure(ds[0])] + MapMinifigures(ds[1..])
  }

  /** `body.map { it.toPartialMinifigureInventoryItem() }` */
  function MapItems(ds: seq<InventoryItemDto>): (ps: seq<PartialInventoryItem>)
    ensures |ps| == |ds|
    ensures forall i :: 0 <= i < |ds| ==>
      InventoryItemDtoOf(ps[i], ds[i].setNum, ds[i].rebrickableId) == ds[i]
  {
    if ds == [] then [] else [ToPartialInventoryItem(ds[0])] + MapItems(ds[1..])
  }

  // ------------------------------------------------ the decision

  /** The branch syncData takes. */
  datatype Decision =
    | Skip                      // a sync that ran in the meantime already moved the watermark
    | Fail(message: string)     // nothing is written
    | NothingNew                // only the watermark is written
    | Save(ss: seq<PartialSeries>, ms: seq<PartialMinifigure>, ips: seq<PartialInventoryItem>)

  /** The exception the awaits rethrow: the first of the three, in await order, that threw. */
  predicate AnyThrown<A, B, C>(fs: Response<A>, fm: Response<B>, fi: Response<C>)
  {
    fs.Thrown? || fm.Thrown? || fi.Thrown?
  }

  function FirstThrown<A, B, C>(fs: Response<A>, fm: Response<B>, fi: Response<C>): (k: ExceptionKind)
    requires AnyThrown(fs, fm, fi)
    ensures (fs.Thrown? && k == fs.kind) || (fm.Thrown? && k == fm.kind) || (fi.Thrown? && k == fi.kind)
  {
    if fs.Thrown? then fs.kind else if fm.Thrown? then fm.kind else fi.kind
  }

  /** syncData's branch for re-read watermark `latest`, caller timestamp `t` and the three
      responses to the queries made with `t`. */
  function Decide(latest: int, t: int, fs: Response<SeriesDto>, fm: Response<MinifigureDto>,
                  fi: Response<InventoryItemDto>): (d: Decision)
    ensures d.Skip? <==> latest > t
    ensures latest <= t && AnyThrown(fs, fm, fi) ==> d == Fail(ExceptionMessage(FirstThrown(fs, fm, fi)))
    ensures d == Fail(NETWORK_RESPONSE_ERROR) <==>
      latest <= t && !AnyThrown(fs, fm, fi) && !(fs.Ok? && fm.Ok? && fi.Ok?)
    ensures d.NothingNew? <==>
      latest <= t && fs.Ok? && fm.Ok? && fi.Ok? && fs.body == [] && fm.body == [] && fi.body == []
    ensures d.Save? <==>
      latest <= t && fs.Ok? && fm.Ok? && fi.Ok? && !(fs.body == [] && fm.body == [] && fi.body == [])
    ensures d.Save? ==>
      && |d.ss| == |fs.body| && (forall i :: 0 <= i < |fs.body| ==> SeriesDtoOf(d.ss[i]) == fs.body[i])
      && |d.ms| == |fm.body| && (forall i :: 0 <= i < |fm.body| ==> MinifigureDtoOf(d.ms[i]) == fm.body[i])
      && |d.ips| == |fi.body|
  {
    if latest > t then Skip
    else if AnyThrown(fs, fm, fi) then Fail(ExceptionMessage(FirstThrown(fs, fm, fi)))
    else if !(fs.Ok? && fm.Ok? && fi.Ok?) then Fail(NETWORK_RESPONSE_ERROR)
    else if fs.body == [] && fm.body == [] && fi.body == [] then NothingNew
    else Save(MapSeries(fs.body), MapMinifigures(fm.body), MapItems(fi.body))
  }

  // ------------------------------------------------ the effects

  /** The store, the watermark and the reported state after a sync. */
  datatype SyncEnd = SyncEnd(db: Db, watermark: int, result: SyncState)

  /** What a decision does to the store content `db` and the watermark, with `now` the time
      taken just before the requests. A rolled-back upsertAll throws, and the generic
      handler turns that into the catch-all failure. */
  function Carry(db: Db, watermark: int, now: int, d: Decision): (e: SyncEnd)
    ensures e.result != Loading
    ensures e.watermark == watermark || e.watermark == now
    ensures e.result.Failure? ==> e.db == db && e.watermark == watermark
    ensures e.db != db ==> e.result == Success
    ensures d.Save? && Merge.UpsertAll(db, d.ss, d.ms, d.ips).RolledBack? ==>
      e == SyncEnd(db, watermark, Failure(ExceptionMessage(OtherException)))
  {
    match d
    case Skip => SyncEnd(db, watermark, NoNewData)
    case Fail(msg) => SyncEnd(db, watermark, Failure(msg))
    case NothingNew => SyncEnd(db, now, NoNewData)
    case Save(ss, ms, ips) =>
      match Merge.UpsertAll(db, ss, ms, ips)
      case Committed(u) => SyncEnd(u, now, Success)
      case RolledBack => SyncEnd(db, watermark, Failure(ExceptionMessage(OtherException)))
  }

  /** syncData called with timestamp `t` while the store holds `db` and the persisted
      watermark is `watermark`. */
  function Synced(db: Db, watermark: int, t: int, now: int, api: Api): (e: SyncEnd)
    ensures e.result != Loading
    ensures watermark > t ==> e == SyncEnd(db, watermark, NoNewData)
    ensures e.result.Failure? ==> e.db == db && e.watermark == watermark
  {
    Carry(db, watermark, now, Decide(watermark, t, api.series(t), api.minifigures(t), api.items(t)))
  }

  /** The use case: syncData with the watermark read just before the call. */
  function SyncedByUseCase(db: Db, watermark: int, now: int, api: Api): (e: SyncEnd)
    ensures e.result != Loading
    ensures e.watermark != watermark ==> e.watermark == now && (e.result == Success || e.result == NoNewData)
  {
    Synced(db, watermark, watermark, now, api)
  }

  // ------------------------------------------------ what the decision promises

  /** Only a watermark strictly ahead of the caller's timestamp skips the sync: with equal
      timestamps the requests are made, and their answers decide the result. */
  lemma SkipOnlyWhenAhead(db: Db, watermark: int, t: int, now: int, api: Api)
    ensures var e := Synced(db, watermark, t, now, api);
      watermark <= t ==>
        e == Carry(db, watermark, now, Decide(t, t, api.series(t), api.minifigures(t), api.items(t)))
  {
  }

  /** The requests use the caller's timestamp: two catalogues that answer the same at `t`
      give the same sync, whatever they answer at the re-read watermark or anywhere else. */
  lemma FetchesUseCallerTimestamp(db: Db, watermark: int, t: int, now: int, a: Api, b: Api)
    requires a.series(t) == b.series(t) && a.minifigures(t) == b.minifigures(t) && a.items(t) == b.items(t)
    ensures Synced(db, watermark, t, now, a) == Synced(db, watermark, t, now, b)
  {
  }

  /** When no request throws and all three bodies are empty the result is NoNewData, the
      watermark becomes `now` and the store is untouched. */
  lemma EmptyBodiesMoveOnlyWatermark(db: Db, watermark: int, t: int, now: int, api: Api)
    requires watermark <= t
    requires api.series(t) == Ok([]) && api.minifigures(t) == Ok([]) && api.items(t) == Ok([])
    ensures Synced(db, watermark, t, now, api) == SyncEnd(db, now, NoNewData)
  {
  }

  /** Success exactly when the responses carry data and upsertAll commits; the store then
      holds what upsertAll committed for the mapped lists, and the watermark is `now`. */
  lemma SuccessIsCommittedUpsert(db: Db, watermark: int, t: int, now: int, api: Api)
    ensures var e := Synced(db, watermark, t, now, api);
      var d := Decide(watermark, t, api.series(t), api.minifigures(t), api.items(t));
      e.result == Success <==>
        d.Save? && Merge.UpsertAll(db, d.ss, d.ms, d.ips).Committed?
    ensures var e := Synced(db, watermark, t, now, api);
      var d := Decide(watermark, t, api.series(t), api.minifigures(t), api.items(t));
      e.result == Success ==>
        e.db == Merge.UpsertAll(db, d.ss, d.ms, d.ips).db && e.watermark == now
  {
  }

  /** Each thrown exception gives its own message and leaves store and watermark alone. */
  lemma ExceptionsBecomeFailures(db: Db, watermark: int, t: int, now: int, api: Api)
    requires watermark <= t
    requires AnyThrown(api.series(t), api.minifigures(t), api.items(t))
    ensures var k := FirstThrown(api.series(t), api.minifigures(t), api.items(t));
      && Synced(db, watermark, t, now, api) == SyncEnd(db, watermark, Failure(ExceptionMessage(k)))
      && (k == UnknownHost ==> ExceptionMessage(k) == "No internet connection")
      && (k == SocketTimeout ==> ExceptionMessage(k) == "Connection timeout - please try again")
      && (k == OtherException ==> ExceptionMessage(k) == "Sync failed. Please check your internet.")
  {
  }

  /** Called through the use case, the re-read watermark is the timestamp passed, so the
      skip branch is never taken; a call after one that fetched successfully queries the
      catalogue with that call's `now`. */
  lemma SequentialCallsNeverSkip(db: Db, watermark: int, now1: int, now2: int, api: Api)
    ensures var e1 := SyncedByUseCase(db, watermark, now1, api);
      && Decide(watermark, watermark, api.series(watermark), api.minifigures(watermark),
                api.items(watermark)) != Skip
      && (e1.result == Success || e1.result == NoNewData ==>
            SyncedByUseCase(e1.db, e1.watermark, now2, api)
              == Carry(e1.db, now1, now2, Decide(now1, now1, api.series(now1),
                                                 api.minifigures(now1), api.items(now1))))
  {
  }

  // ------------------------------------------------ the objects

  /** The app-state repository: the DataStore behind getAppState and
      updateLastFetchedTimestamp. */
  class AppStateRepository {
    var appState: AppState

    /** A fresh install holds the default app state. */
    constructor ()
      ensures appState == AppState(EPOCH)
    {
      appState := AppState(EPOCH);
    }

    method GetAppState() returns (s: AppState)
      ensures s == appState
    {
      s := appState;
    }

    method UpdateLastFetchedTimestamp(timestamp: int)
      modifies this
      ensures appState == old(appState).(lastFetchedTimestamp := timestamp)
    {
      appState := appState.(lastFetchedTimestamp := timestamp);
    }
  }

  /** The sync repository over the remote catalogue and the upsert DAO. */
  class SyncRepository {
    const api: Api
    const upsertDao: LocalStore.Store

    constructor (api: Api, upsertDao: LocalStore.Store)
      ensures this.api == api && this.upsertDao == upsertDao
    {
      this.api := api;
      this.upsertDao := upsertDao;
    }

    /** syncData: re-read the watermark, skip if it moved past `lastFetchedTimestamp`,
        otherwise take `now`, fetch with `lastFetchedTimestamp`, and act on the decision.
        The watermark is written only after upsertAll has returned and committed. */
    method SyncData(lastFetchedTimestamp: int, appStateRepo: AppStateRepository, now: int)
      returns (r: SyncState)
      modifies upsertDao, appStateRepo
      ensures var e := Synced(old(upsertDao.State()), old(appStateRepo.appState.lastFetchedTimestamp),
                              lastFetchedTimestamp, now, api);
        && r == e.result
        && upsertDao.State() == e.db
        && appStateRepo.appState == old(appStateRepo.appState).(lastFetchedTimestamp := e.watermark)
    {
      var latest := appStateRepo.GetAppState();
      var d := Decide(latest.lastFetchedTimestamp, lastFetchedTimestamp,
                      api.series(lastFetchedTimestamp), api.minifigures(lastFetchedTimestamp),
                      api.items(lastFetchedTimestamp));
      match d
      case Skip =>
        r := NoNewData;
      case Fail(msg) =>
        r := Failure(msg);
      case NothingNew =>
        appStateRepo.UpdateLastFetchedTimestamp(now);
        r := NoNewData;
      case Save(ss, ms, ips) =>
        var committed := upsertDao.UpsertAll(ss, ms, ips);
        if committed {
          appStateRepo.UpdateLastFetchedTimestamp(now);
          r := Success;
        } else {
          r := Failure(ExceptionMessage(OtherException));
        }
    }
  }

  /** SyncDataUseCase: reads the watermark and passes it, with the app-state repository's
      reader and writer, to syncData; the result is returned unchanged. */
  class SyncDataUseCase {
    const syncRepo: SyncRepository
    const appStateRepo: AppStateRepository

    constructor (syncRepo: SyncRepository, appStateRepo: AppStateRepository)
      ensures this.syncRepo == syncRepo && this.appStateRepo == appStateRepo
    {
      this.syncRepo := syncRepo;
      this.appStateRepo := appStateRepo;
    }

    method Invoke(now: int) returns (r: SyncState)
      modifies syncRepo.upsertDao, appStateRepo
      ensures var e := SyncedByUseCase(old(syncRepo.upsertDao.State()),
                                       old(appStateRepo.appState.lastFetchedTimestamp), now, syncRepo.api);
        && r == e.result
        && syncRepo.upsertDao.State() == e.db
        && appStateRepo.appState.lastFetchedTimestamp == e.watermark
    {
      var appState := appStateRepo.GetAppState();
      r := syncRepo.SyncData(appState.lastFetchedTimestamp, appStateRepo, now);
    }
  }
}
