/** The read side of the local catalogue store: the SELECT queries of the data-access
    objects as pure functions of the tables. A listing is the sequence of the ids of the rows
    it returns, in the order it returns them; the rows themselves are the table rows at
    those ids.

    ORDER BY compares `releaseDate` as TEXT under SQLite's default BINARY collation, that
    is code point by code point, and then `positionInSeries` as an integer. Rows that tie
    on every ORDER BY key come back in an order SQL leaves open; the listings here break
    such ties by id, and their contracts promise only the ORDER BY order. */
module Views {
  import opened Records
  import opened Catalog

  // ------------------------------------------------ TEXT comparison

  /** `a` sorts strictly before `b` under the BINARY collation: the first differing
      character decides, and a proper prefix comes first. */
  predicate TextLess(a: string, b: string)
    decreases |a|
  {
    if a == [] then b != []
    else if b == [] then false
    else if a[0] != b[0] then a[0] < b[0]
    else TextLess(a[1..], b[1..])
  }

  lemma {:induction false} TextLessIrreflexive(a: string)
    ensures !TextLess(a, a)
    decreases |a|
  {
    if a != [] {
      TextLessIrreflexive(a[1..]);
    }
  }

  lemma {:induction false} TextLessTransitive(a: string, b: string, c: string)
    requires TextLess(a, b) && TextLess(b, c)
    ensures TextLess(a, c)
    decreases |a|
  {
    if a != [] && a[0] == b[0] && b[0] == c[0] {
      TextLessTransitive(a[1..], b[1..], c[1..]);
    }
  }

  /** Two different texts are ordered one way or the other. */
  lemma {:induction false} TextLessTotal(a: string, b: string)
    requires a != b
    ensures TextLess(a, b) || TextLess(b, a)
    decreases |a|
  {
    if a != [] && b != [] && a[0] == b[0] {
      assert a == [a[0]] + a[1..] && b == [b[0]] + b[1..];
      TextLessTotal(a[1..], b[1..]);
    }
  }

  lemma TextLessAsymmetric(a: string, b: string)
    requires TextLess(a, b)
    ensures !TextLess(b, a)
  {
    if TextLess(b, a) {
      TextLessTransitive(a, b, a);
      TextLessIrreflexive(a);
    }
  }

  // ------------------------------------------------ ORDER BY

  datatype Direction = Ascending | Descending

  /** The ORDER BY keys of a row: the release date (of the row, or of its series through
      the join) and the position in the series. Listings that order by one key only give
      the other a constant. */
  datatype SortKey = SortKey(releaseDate: string, position: int)

  /** `a` comes strictly first on the ORDER BY keys: release date in `dir`, then position
      ascending. */
  predicate KeyBefore(dir: Direction, a: SortKey, b: SortKey)
  {
    if a.releaseDate != b.releaseDate then
      (if dir == Ascending then TextLess(a.releaseDate, b.releaseDate) else TextLess(b.releaseDate, a.releaseDate))
    else a.position < b.position
  }

  /** The order of the listings: the ORDER BY keys, then the id among rows that tie. */
  predicate RowBefore(dir: Direction, keys: map<int, SortKey>, a: int, b: int)
    requires a in keys && b in keys
  {
    KeyBefore(dir, keys[a], keys[b]) || (keys[a] == keys[b] && a < b)
  }

  /** The ids `r` come in ORDER BY order: no id is preceded by one that sorts after it. */
  predicate Ordered(dir: Direction, keys: map<int, SortKey>, r: seq<int>)
  {
    forall i, j :: 0 <= i < j < |r| && r[i] in keys && r[j] in keys ==>
      !KeyBefore(dir, keys[r[j]], keys[r[i]])
  }

  lemma KeyBeforeAsymmetric(dir: Direction, a: SortKey, b: SortKey)
    requires KeyBefore(dir, a, b)
    ensures !KeyBefore(dir, b, a)
  {
    if a.releaseDate != b.releaseDate {
      if dir == Ascending {
        TextLessAsymmetric(a.releaseDate, b.releaseDate);
      } else {
        TextLessAsymmetric(b.releaseDate, a.releaseDate);
      }
    }
  }

  lemma KeyBeforeTransitive(dir: Direction, a: SortKey, b: SortKey, c: SortKey)
    requires KeyBefore(dir, a, b) && KeyBefore(dir, b, c)
    ensures KeyBefore(dir, a, c)
  {
    if a.releaseDate != b.releaseDate && b.releaseDate != c.releaseDate {
      if dir == Ascending {
        TextLessTransitive(a.releaseDate, b.releaseDate, c.releaseDate);
        if a.releaseDate == c.releaseDate {
          TextLessIrreflexive(a.releaseDate);
          TextLessTransitive(a.releaseDate, b.releaseDate, a.releaseDate);
        }
      } else {
        TextLessTransitive(c.releaseDate, b.releaseDate, a.releaseDate);
        if a.releaseDate == c.releaseDate {
          TextLessIrreflexive(a.releaseDate);
          TextLessTransitive(a.releaseDate, b.releaseDate, a.releaseDate);
        }
      }
    }
  }

  lemma KeyBeforeTotal(dir: Direction, a: SortKey, b: SortKey)
    requires a != b
    ensures KeyBefore(dir, a, b) || KeyBefore(dir, b, a)
  {
    if a.releaseDate != b.releaseDate {
      TextLessTotal(a.releaseDate, b.releaseDate);
    }
  }

  lemma RowBeforeTransitive(dir: Direction, keys: map<int, SortKey>, a: int, b: int, c: int)
    requires a in keys && b in keys && c in keys
    requires RowBefore(dir, keys, a, b) && RowBefore(dir, keys, b, c)
    ensures RowBefore(dir, keys, a, c)
  {
    if KeyBefore(dir, keys[a], keys[b]) && KeyBefore(dir, keys[b], keys[c]) {
      KeyBeforeTransitive(dir, keys[a], keys[b], keys[c]);
    }
  }

  /** The order of the listings leaves no two rows unordered. */
  lemma RowBeforeTotal(dir: Direction, keys: map<int, SortKey>, a: int, b: int)
    requires a in keys && b in keys && a != b
    ensures RowBefore(dir, keys, a, b) || RowBefore(dir, keys, b, a)
  {
    if keys[a] != keys[b] {
      KeyBeforeTotal(dir, keys[a], keys[b]);
    }
  }

  /** A row that comes first in the listing order does not sort after the other on the
      ORDER BY keys. */
  lemma RowBeforeKeepsKeyOrder(dir: Direction, keys: map<int, SortKey>, a: int, b: int)
    requires a in keys && b in keys && RowBefore(dir, keys, a, b)
    ensures !KeyBefore(dir, keys[b], keys[a])
  {
    if KeyBefore(dir, keys[a], keys[b]) {
      KeyBeforeAsymmetric(dir, keys[a], keys[b]);
    } else {
      TextLessIrreflexive(keys[a].releaseDate);
    }
  }

  // ------------------------------------------------ sorting a set of ids

  /** A nonempty set of ids has one that comes before all the others. */
  lemma {:induction false} HasFirst(dir: Direction, keys: map<int, SortKey>, ids: set<int>)
    requires ids <= keys.Keys && |ids| > 0
    ensures exists k :: k in ids && forall j :: j in ids && j != k ==> RowBefore(dir, keys, k, j)
    decreases |ids|
  {
    if forall y :: y !in ids {
      assert false;
    }
    var x :| x in ids;
    var rest := ids - {x};
    if |rest| == 0 {
      assert forall j :: j in ids && j != x ==> j in rest;
    } else {
      HasFirst(dir, keys, rest);
      var m :| m in rest && forall j :: j in rest && j != m ==> RowBefore(dir, keys, m, j);
      if RowBefore(dir, keys, x, m) {
        forall j | j in ids && j != x
          ensures RowBefore(dir, keys, x, j)
        {
          if j != m {
            RowBeforeTransitive(dir, keys, x, m, j);
          }
        }
      } else {
        RowBeforeTotal(dir, keys, x, m);
        assert forall j :: j in ids && j != m ==> RowBefore(dir, keys, m, j);
      }
    }
  }

  /** The id of `ids` that comes first. */
  ghost function First(dir: Direction, keys: map<int, SortKey>, ids: set<int>): (k: int)
    requires ids <= keys.Keys && |ids| > 0
    ensures k in ids && forall j :: j in ids && j != k ==> RowBefore(dir, keys, k, j)
  {
    HasFirst(dir, keys, ids);
    var k :| k in ids && forall j :: j in ids && j != k ==> RowBefore(dir, keys, k, j);
    k
  }

  /** The ids of `ids` in listing order, each once. */
  ghost function Sort(dir: Direction, keys: map<int, SortKey>, ids: set<int>): (r: seq<int>)
    requires ids <= keys.Keys
    ensures Elems(r) == ids && Distinct(r)
    ensures forall x :: x in r <==> x in ids
    ensures forall i, j :: 0 <= i < j < |r| ==> RowBefore(dir, keys, r[i], r[j])
    decreases |ids|
  {
    if |ids| == 0 then []
    else
      var k := First(dir, keys, ids);
      var rest := Sort(dir, keys, ids - {k});
      SortCons(dir, keys, ids, k, rest);
      [k] + rest
  }

  /** The first id followed by the others in listing order lists all of them in order. */
  lemma SortCons(dir: Direction, keys: map<int, SortKey>, ids: set<int>, k: int, rest: seq<int>)
    requires ids <= keys.Keys && k in ids
    requires forall j :: j in ids && j != k ==> RowBefore(dir, keys, k, j)
    requires Elems(rest) == ids - {k} && Distinct(rest)
    requires forall x :: x in rest <==> x in ids - {k}
    requires forall i :: 0 <= i < |rest| ==> rest[i] in ids
    requires forall i, j :: 0 <= i < j < |rest| ==> RowBefore(dir, keys, rest[i], rest[j])
    ensures var r := [k] + rest;
      && Elems(r) == ids && Distinct(r)
      && (forall x :: x in r <==> x in ids)
      && (forall i, j :: 0 <= i < j < |r| ==> RowBefore(dir, keys, r[i], r[j]))
  {
    var r := [k] + rest;
    assert forall j :: 1 <= j < |r| ==> r[j] == rest[j - 1];
    assert Elems(r) == {k} + Elems(rest);
  }

  /** A sorted listing is in ORDER BY order. */
  lemma SortOrdered(dir: Direction, keys: map<int, SortKey>, ids: set<int>)
    requires ids <= keys.Keys
    ensures Ordered(dir, keys, Sort(dir, keys, ids))
  {
    var r := Sort(dir, keys, ids);
    forall i, j | 0 <= i < j < |r| && r[i] in keys && r[j] in keys
      ensures !KeyBefore(dir, keys[r[j]], keys[r[i]])
    {
      RowBeforeKeepsKeyOrder(dir, keys, r[i], r[j]);
    }
  }

  // ------------------------------------------------ LIKE '%' || :query || '%'

  /** SQLite's LIKE folds the case of ASCII letters only. */
  function FoldCase(c: char): char
  {
    if 'A' <= c <= 'Z' then (c as int + 32) as char else c
  }

  /** `s` LIKE `p`, without an ESCAPE clause: `%` matches any run of characters, `_` any one
      character, and any other character itself up to ASCII case. */
  predicate Like(p: string, s: string)
    decreases |p| + |s|
  {
    if p == [] then s == []
    else if p[0] == '%' then Like(p[1..], s) || (s != [] && Like(p, s[1..]))
    else s != [] && (p[0] == '_' || FoldCase(p[0]) == FoldCase(s[0])) && Like(p[1..], s[1..])
  }

  /** The pattern the searches build from the user's query. */
  function ContainsPattern(q: string): string
  {
    "%" + q + "%"
  }

  predicate NoWildcards(q: string)
  {
    forall i :: 0 <= i < |q| ==> q[i] != '%' && q[i] != '_'
  }

  /** `a` and `b` are equal up to ASCII case. */
  predicate SameIgnoringCase(a: string, b: string)
  {
    |a| == |b| && forall i :: 0 <= i < |a| ==> FoldCase(a[i]) == FoldCase(b[i])
  }

  /** `q` occurs in `s` up to ASCII case. */
  predicate ContainsIgnoringCase(s: string, q: string)
  {
    exists i :: 0 <= i <= |s| && OccursAt(s, q, i)
  }

  /** `q` occurs in `s` at index `i` up to ASCII case. */
  predicate OccursAt(s: string, q: string, i: int)
  {
    0 <= i <= |s| - |q| && SameIgnoringCase(s[i..i + |q|], q)
  }

  /** A lone `%` matches every text. */
  lemma {:induction false} LikeAnything(s: string)
    ensures Like("%", s)
    decreases |s|
  {
    if s != [] {
      LikeAnything(s[1..]);
    }
  }

  /** A wildcard-free `q` followed by `%` matches exactly the texts that start with `q`. */
  lemma {:induction false} LikePrefix(q: string, s: string)
    requires NoWildcards(q)
    ensures Like(q + "%", s) <==> |q| <= |s| && SameIgnoringCase(s[..|q|], q)
    decreases |q|
  {
    if q == [] {
      assert q + "%" == "%";
      LikeAnything(s);
    } else {
      var p := q + "%";
      assert p[0] == q[0] && p[1..] == q[1..] + "%";
      LikePrefix(q[1..], if s == [] then s else s[1..]);
      if s != [] {
        if |q| <= |s| && SameIgnoringCase(s[..|q|], q) {
          assert SameIgnoringCase(s[1..][..|q[1..]|], q[1..]) by {
            forall i | 0 <= i < |q[1..]|
              ensures FoldCase(s[1..][..|q[1..]|][i]) == FoldCase(q[1..][i])
            {
              assert s[1..][..|q[1..]|][i] == s[..|q|][i + 1];
            }
          }
        }
        if Like(p, s) {
          assert SameIgnoringCase(s[..|q|], q) by {
            forall i | 0 <= i < |q|
              ensures FoldCase(s[..|q|][i]) == FoldCase(q[i])
            {
              if i > 0 {
                assert s[..|q|][i] == s[1..][..|q[1..]|][i - 1];
              }
            }
          }
        }
      }
    }
  }

  /** A leading `%` lets the rest of the pattern match any suffix. */
  lemma {:induction false} LikeLeadingPercent(r: string, s: string)
    ensures Like("%" + r, s) <==> exists i :: 0 <= i <= |s| && Like(r, s[i..])
    decreases |s|
  {
    var p := "%" + r;
    assert p[0] == '%' && p[1..] == r;
    assert s[0..] == s;
    if s != [] {
      LikeLeadingPercent(r, s[1..]);
      if exists i :: 0 <= i <= |s| && Like(r, s[i..]) {
        var i :| 0 <= i <= |s| && Like(r, s[i..]);
        if i > 0 {
          assert s[1..][i - 1..] == s[i..];
        }
      }
      if exists i :: 0 <= i <= |s[1..]| && Like(r, s[1..][i..]) {
        var i :| 0 <= i <= |s[1..]| && Like(r, s[1..][i..]);
        assert s[1..][i..] == s[i + 1..];
      }
    }
  }

  /** For a query without wildcards the search pattern is a case-insensitive substring
      test. */
  lemma LikeContains(q: string, s: string)
    requires NoWildcards(q)
    ensures Like(ContainsPattern(q), s) <==> ContainsIgnoringCase(s, q)
  {
    assert ContainsPattern(q) == "%" + (q + "%");
    LikeLeadingPercent(q + "%", s);
    if Like(ContainsPattern(q), s) {
      var i :| 0 <= i <= |s| && Like(q + "%", s[i..]);
      LikePrefix(q, s[i..]);
      assert s[i..][..|q|] == s[i..i + |q|];
      assert OccursAt(s, q, i);
    }
    if ContainsIgnoringCase(s, q) {
      var i :| 0 <= i <= |s| && OccursAt(s, q, i);
      LikePrefix(q, s[i..]);
      assert s[i..][..|q|] == s[i..i + |q|];
    }
  }

  // ------------------------------------------------ MinifigureDao listings

  /** The five minifigure listings: getVisibleMinifigures, getFavoriteMinifigures,
      getCollectedMinifigures, getWishlistedMinifigures, getUncollectedMinifigures. */
  datatype MinifigureFilter = AllVisible | Favorites | Collected | Wishlisted | Uncollected

  /** The WHERE clause of each listing. */
  predicate Shows(f: MinifigureFilter, m: Minifigure)
  {
    match f
    case AllVisible => !m.hidden
    case Favorites => !m.hidden && m.favorite
    case Collected => !m.hidden && m.collected && !m.wishListed
    case Wishlisted => !m.hidden && m.wishListed && !m.collected
    case Uncollected => !m.hidden && !m.collected
  }

  /** INNER JOIN Series ON Series.id = Minifigure.seriesId: the minifigure's series row
      exists. */
  predicate Joined(db: Db, id: int)
  {
    id in db.minifigs && db.minifigs[id].seriesId in db.series
  }

  /** The ORDER BY keys of the joined rows: the series' release date and the position. */
  function JoinedKeys(db: Db): map<int, SortKey>
  {
    map id | id in db.minifigs && db.minifigs[id].seriesId in db.series ::
      SortKey(db.series[db.minifigs[id].seriesId].releaseDate, db.minifigs[id].positionInSeries)
  }

  /** The ids of the joined rows the filter shows. */
  function ShownIds(db: Db, f: MinifigureFilter): set<int>
  {
    set id | id in db.minifigs && db.minifigs[id].seriesId in db.series && Shows(f, db.minifigs[id])
  }

  /** A minifigure listing: the joined rows the filter shows, each once, newest series
      first and by position within a series. */
  ghost function MinifigureListing(db: Db, f: MinifigureFilter): (r: seq<int>)
    ensures Distinct(r) && Elems(r) == ShownIds(db, f)
    ensures forall id :: id in r <==> Joined(db, id) && Shows(f, db.minifigs[id])
    ensures Ordered(Descending, JoinedKeys(db), r)
  {
    var ids := ShownIds(db, f);
    SortOrdered(Descending, JoinedKeys(db), ids);
    Sort(Descending, JoinedKeys(db), ids)
  }

  /** getMinifiguresMatchingQuery: the visible joined rows whose name is LIKE the query
      wrapped in `%`, oldest series first and by position within a series. */
  ghost function SearchMinifigures(db: Db, q: string): (r: seq<int>)
    ensures Distinct(r)
    ensures forall id :: id in r <==>
      Joined(db, id) && !db.minifigs[id].hidden && Like(ContainsPattern(q), db.minifigs[id].name)
    ensures Ordered(Ascending, JoinedKeys(db), r)
  {
    var ids := set id | id in db.minifigs && db.minifigs[id].seriesId in db.series
      && !db.minifigs[id].hidden && Like(ContainsPattern(q), db.minifigs[id].name);
    SortOrdered(Ascending, JoinedKeys(db), ids);
    Sort(Ascending, JoinedKeys(db), ids)
  }

  /** The row getMinifigure and the search return: some minifigure columns and the name of
      its series. */
  datatype MinifigureWithSeriesName = MinifigureWithSeriesName(
    id: int, name: string, imageUrl: string, collected: bool, wishListed: bool, favorite: bool,
    seriesName: string)

  /** getMinifigure: the minifigure with that id joined with its series, hidden or not; no
      row when the id or its series is missing. */
  function GetMinifigure(db: Db, id: int): (r: Option<MinifigureWithSeriesName>)
    ensures r.Some? <==> Joined(db, id)
    ensures r.Some? ==>
      && r.value.seriesName == db.series[db.minifigs[id].seriesId].name
      && r.value.id == db.minifigs[id].id && r.value.name == db.minifigs[id].name
      && r.value.collected == db.minifigs[id].collected
      && r.value.wishListed == db.minifigs[id].wishListed
      && r.value.imageUrl == db.minifigs[id].imageUrl && r.value.favorite == db.minifigs[id].favorite
  {
    if !Joined(db, id) then None
    else
      var m := db.minifigs[id];
      Some(MinifigureWithSeriesName(m.id, m.name, m.imageUrl, m.collected, m.wishListed, m.favorite,
                                    db.series[m.seriesId].name))
  }

  /** The ORDER BY key of the per-series listings: the position only. */
  function PositionKeys(db: Db): map<int, SortKey>
  {
    map id | id in db.minifigs :: SortKey("", db.minifigs[id].positionInSeries)
  }

  /** getAllMinifiguresFromSeries (`visibleOnly` false) and getVisibleMinifiguresFromSeries
      (`visibleOnly` true): the minifigures of the series, without a join, by position. */
  ghost function SeriesMinifigures(db: Db, sid: int, visibleOnly: bool): (r: seq<int>)
    ensures Distinct(r)
    ensures Elems(r) == if visibleOnly then VisibleOf(db.minifigs, sid) else MinifigsOf(db.minifigs, sid)
    ensures Ordered(Ascending, PositionKeys(db), r)
  {
    var ids := if visibleOnly then VisibleOf(db.minifigs, sid) else MinifigsOf(db.minifigs, sid);
    SortOrdered(Ascending, PositionKeys(db), ids);
    Sort(Ascending, PositionKeys(db), ids)
  }

  // ------------------------------------------------ MinifigureInventoryItemDao listing

  /** getMinifigureInventoryItems: the items of the minifigure, each once; the query has no
      ORDER BY, so the listing is by id. */
  ghost function InventoryItems(db: Db, mid: int): (r: seq<int>)
    ensures Distinct(r)
    ensures forall id :: id in r <==> id in db.items && db.items[id].minifigureId == mid
  {
    var keys := map id | id in db.items :: SortKey("", 0);
    Sort(Ascending, keys, ItemsOf(db.items, mid))
  }

  // ------------------------------------------------ SeriesDao listings

  /** getVisibleSeries, getFavoriteSeries, getCompletedSeries, getUncompletedSeries, and the
      listing behind getHiddenStateOfAllSeries and getIdAndNameOfAllSeries. */
  datatype SeriesFilter = VisibleSeries | FavoriteSeries | CompletedSeries | UncompletedSeries | AllSeries

  /** A series is shown while not all its minifigures are hidden. */
  predicate SeriesVisible(s: Series)
  {
    s.numOfMinifigsHidden != s.numOfMinifigs
  }

  /** Every minifigure of the series that is not hidden is collected. */
  predicate SeriesCompleted(s: Series)
  {
    s.numOfMinifigsCollected == s.numOfMinifigs - s.numOfMinifigsHidden
  }

  predicate ShowsSeries(f: SeriesFilter, s: Series)
  {
    match f
    case VisibleSeries => SeriesVisible(s)
    case FavoriteSeries => SeriesVisible(s) && s.favorite
    case CompletedSeries => SeriesVisible(s) && SeriesCompleted(s)
    case UncompletedSeries => SeriesVisible(s) && !SeriesCompleted(s)
    case AllSeries => true
  }

  function ReleaseKeys(db: Db): map<int, SortKey>
  {
    map id | id in db.series :: SortKey(db.series[id].releaseDate, 0)
  }

  /** The ids of the series the filter shows. */
  function ShownSeriesIds(db: Db, f: SeriesFilter): set<int>
  {
    set id | id in db.series && ShowsSeries(f, db.series[id])
  }

  /** A series listing: the series the filter shows, each once, newest first. */
  ghost function SeriesListing(db: Db, f: SeriesFilter): (r: seq<int>)
    ensures Distinct(r) && Elems(r) == ShownSeriesIds(db, f)
    ensures forall id :: id in r <==> id in db.series && ShowsSeries(f, db.series[id])
    ensures Ordered(Descending, ReleaseKeys(db), r)
  {
    var ids := ShownSeriesIds(db, f);
    SortOrdered(Descending, ReleaseKeys(db), ids);
    Sort(Descending, ReleaseKeys(db), ids)
  }

  /** getSeriesMatchingQuery: the visible series whose name is LIKE the query wrapped in
      `%`, oldest first. */
  ghost function SearchSeries(db: Db, q: string): (r: seq<int>)
    ensures Distinct(r)
    ensures forall id :: id in r <==>
      id in db.series && SeriesVisible(db.series[id]) && Like(ContainsPattern(q), db.series[id].name)
    ensures Ordered(Ascending, ReleaseKeys(db), r)
  {
    var ids := set id | id in db.series && SeriesVisible(db.series[id]) && Like(ContainsPattern(q), db.series[id].name);
    SortOrdered(Ascending, ReleaseKeys(db), ids);
    Sort(Ascending, ReleaseKeys(db), ids)
  }
}
