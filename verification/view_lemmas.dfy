/** What the listings promise together: how the filters split the visible rows, when the
    redundant WHERE conditions are in fact redundant, what the searches find, and how the
    listings follow hideSeries and unhideSeries. */
module ViewLemmas {
  import opened Records
  import opened Catalog
  import opened Views
  import Rules
  import DaoLemmas

  /** The collected and the uncollected listings never share a row, and together they
      list every visible row exactly when no visible row is both collected and
      wishlisted. */
  lemma CollectedUncollectedPartition(db: Db)
    ensures var c := ShownIds(db, Collected);
      var u := ShownIds(db, Uncollected);
      var v := ShownIds(db, AllVisible);
      && c * u == {}
      && c + u <= v
      && (c + u == v <==>
            forall id :: Joined(db, id) && !db.minifigs[id].hidden ==>
              !(db.minifigs[id].collected && db.minifigs[id].wishListed))
  {
    var c := ShownIds(db, Collected);
    var u := ShownIds(db, Uncollected);
    var v := ShownIds(db, AllVisible);
    assert c * u == {} by {
      forall id | id in c * u ensures false {
      }
    }
    forall id | id in c + u ensures id in v {
      assert Shows(Collected, db.minifigs[id]) || Shows(Uncollected, db.minifigs[id]);
    }
    if forall id :: Joined(db, id) && !db.minifigs[id].hidden ==>
              !(db.minifigs[id].collected && db.minifigs[id].wishListed) {
      forall id | id in v ensures id in c + u {
        assert Shows(AllVisible, db.minifigs[id]);
      }
    }
    if c + u == v {
      forall id | Joined(db, id) && !db.minifigs[id].hidden
        ensures !(db.minifigs[id].collected && db.minifigs[id].wishListed)
      {
        assert id in v;
      }
    }
  }

  /** Under the mutual exclusion the update rules keep, collected and uncollected split the
      visible listing. */
  lemma CollectedUncollectedSplitVisible(db: Db)
    requires MutuallyExclusive(db)
    ensures ShownIds(db, Collected) + ShownIds(db, Uncollected) == ShownIds(db, AllVisible)
  {
    CollectedUncollectedPartition(db);
  }

  /** Every wishlisted row is also listed as uncollected, and every favorite, collected or
      wishlisted row is visible. */
  lemma ListingsNest(db: Db)
    ensures ShownIds(db, Wishlisted) <= ShownIds(db, Uncollected)
    ensures ShownIds(db, Favorites) <= ShownIds(db, AllVisible)
    ensures ShownIds(db, Collected) <= ShownIds(db, AllVisible)
  {
    forall id | id in ShownIds(db, Wishlisted) ensures id in ShownIds(db, Uncollected) {
      assert Shows(Wishlisted, db.minifigs[id]);
    }
    forall id | id in ShownIds(db, Favorites) ensures id in ShownIds(db, AllVisible) {
      assert Shows(Favorites, db.minifigs[id]);
    }
    forall id | id in ShownIds(db, Collected) ensures id in ShownIds(db, AllVisible) {
      assert Shows(Collected, db.minifigs[id]);
    }
  }

  /** The extra `hidden = 0` and exclusion conditions of the favorite, collected and
      wishlisted listings change nothing while hidden rows are reset and no row is both
      collected and wishlisted: each lists exactly the joined rows with its own flag. */
  lemma ExtraConditionsRedundant(db: Db)
    requires HiddenReset(db) && MutuallyExclusive(db)
    ensures forall id :: Joined(db, id) ==>
      && (id in ShownIds(db, Favorites) <==> db.minifigs[id].favorite)
      && (id in ShownIds(db, Collected) <==> db.minifigs[id].collected)
      && (id in ShownIds(db, Wishlisted) <==> db.minifigs[id].wishListed)
  {
    forall id | Joined(db, id)
      ensures id in ShownIds(db, Favorites) <==> db.minifigs[id].favorite
      ensures id in ShownIds(db, Collected) <==> db.minifigs[id].collected
      ensures id in ShownIds(db, Wishlisted) <==> db.minifigs[id].wishListed
    {
      var m := db.minifigs[id];
      if m.hidden {
        assert !m.favorite && !m.collected && !m.wishListed;
      } else {
        assert !(m.collected && m.wishListed);
      }
    }
  }

  /** The completed and uncompleted series listings split the visible one, and the favorite
      listing lies within it; the all-series listing holds every series, hidden ones
      included. */
  lemma SeriesListingsPartition(db: Db)
    ensures var c := ShownSeriesIds(db, CompletedSeries);
      var u := ShownSeriesIds(db, UncompletedSeries);
      var v := ShownSeriesIds(db, VisibleSeries);
      && c * u == {} && c + u == v
      && ShownSeriesIds(db, FavoriteSeries) <= v
      && ShownSeriesIds(db, AllSeries) == db.series.Keys
      && (forall id :: id in db.series && !SeriesVisible(db.series[id]) ==> id !in v)
  {
    var c := ShownSeriesIds(db, CompletedSeries);
    var u := ShownSeriesIds(db, UncompletedSeries);
    var v := ShownSeriesIds(db, VisibleSeries);
    assert c * u == {} by {
      forall id | id in c * u ensures false {
      }
    }
    forall id | id in c + u ensures id in v {
      assert ShowsSeries(CompletedSeries, db.series[id]) || ShowsSeries(UncompletedSeries, db.series[id]);
    }
    forall id | id in v ensures id in c + u {
      assert ShowsSeries(VisibleSeries, db.series[id]);
    }
    forall id | id in ShownSeriesIds(db, FavoriteSeries) ensures id in v {
      assert ShowsSeries(FavoriteSeries, db.series[id]);
    }
    forall id | id in db.series ensures id in ShownSeriesIds(db, AllSeries) {
      assert ShowsSeries(AllSeries, db.series[id]);
    }
  }

  /** For a query without `%` or `_` the minifigure search lists the visible joined rows
      whose name contains the query, ignoring ASCII case. */
  lemma SearchMinifiguresFindsSubstrings(db: Db, q: string)
    requires NoWildcards(q)
    ensures forall id :: id in SearchMinifigures(db, q) <==>
      Joined(db, id) && !db.minifigs[id].hidden && ContainsIgnoringCase(db.minifigs[id].name, q)
  {
    forall id | Joined(db, id)
      ensures Like(ContainsPattern(q), db.minifigs[id].name) <==> ContainsIgnoringCase(db.minifigs[id].name, q)
    {
      LikeContains(q, db.minifigs[id].name);
    }
  }

  /** For a query without `%` or `_` the series search lists the visible series whose name
      contains the query, ignoring ASCII case. */
  lemma SearchSeriesFindsSubstrings(db: Db, q: string)
    requires NoWildcards(q)
    ensures forall id :: id in SearchSeries(db, q) <==>
      id in db.series && SeriesVisible(db.series[id]) && ContainsIgnoringCase(db.series[id].name, q)
  {
    forall id | id in db.series
      ensures Like(ContainsPattern(q), db.series[id].name) <==> ContainsIgnoringCase(db.series[id].name, q)
    {
      LikeContains(q, db.series[id].name);
    }
  }

  /** After hideSeries no listing shows a minifigure of that series, and the all-minifigures
      listing of the series still lists the same rows. */
  lemma HiddenSeriesLeavesListings(db: Db, sid: int)
    ensures var u := Rules.HideSeries(db, sid).db;
      && SeriesMinifigures(u, sid, true) == []
      && Elems(SeriesMinifigures(u, sid, false)) == Elems(SeriesMinifigures(db, sid, false))
      && (forall f, id :: id in MinifigureListing(u, f) ==> u.minifigs[id].seriesId != sid)
  {
    var u := Rules.HideSeries(db, sid).db;
    DaoLemmas.HideSeriesEffect(db, sid);
    var r := SeriesMinifigures(u, sid, true);
    forall f, id | id in MinifigureListing(u, f)
      ensures u.minifigs[id].seriesId != sid
    {
    }
  }

  /** After unhideSeries the visible listing of the series lists all its minifigures. */
  lemma UnhiddenSeriesListed(db: Db, sid: int)
    ensures var u := Rules.UnhideSeries(db, sid).db;
      Elems(SeriesMinifigures(u, sid, true)) == Elems(SeriesMinifigures(db, sid, false))
  {
    DaoLemmas.UnhideSeriesEffect(db, sid);
  }
}
