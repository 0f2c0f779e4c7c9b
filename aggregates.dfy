/** Group-by aggregates of a (filtered) review table: per-city statistics in the key order of
    pandas' `groupby` (ascending city name), per-city order volume, and the order-type
    frequency distribution (`value_counts`). */
module Aggregates {
  import opened Seqs
  import opened Strings
  import opened Reviews

  /** The rows of one city, in source order. */
  function Group(rows: seq<Row>, city: string): (g: seq<Row>)
    ensures forall x :: x in g <==> x in rows && x.review.location == city
  {
    GroupBy(rows, Location, city)
  }

  /** A group holds as many rows as the city occurs in the `Location` column. */
  lemma {:induction false} GroupSize(rows: seq<Row>, city: string)
    ensures |Group(rows, city)| == Occ(Locations(rows), city)
    decreases |rows|
  {
    if rows != [] {
      var n := |rows| - 1;
      assert rows == rows[..n] + [rows[n]];
      assert Locations(rows) == Locations(rows[..n]) + [Location(rows[n])];
      GroupSize(rows[..n], city);
      GroupBySnoc(rows[..n], rows[n], Location, city);
      OccSnoc(Locations(rows[..n]), Location(rows[n]), city);
    }
  }

  lemma GroupNonEmpty(rows: seq<Row>, city: string)
    requires city in Locations(rows)
    ensures |Group(rows, city)| > 0
  {
    ProjectMember(rows, Location, city);
    var x :| x in rows && Location(x) == city;
    assert x in Group(rows, city);
  }

  /** One row of `get_city_stats`: mean `Rating`, first `Latitude`/`Longitude`, and the count of
      `Order Type` values of one city. */
  datatype CityStat = CityStat(location: string, meanRating: real, coord: Coord, orderCount: nat)

  /** Mean rating of the rows of one city: between the lowest and the highest of their ratings. */
  function CityMean(rows: seq<Row>, city: string): (m: real)
    requires city in Locations(rows)
    ensures exists x :: x in rows && x.review.location == city && x.review.rating <= m
    ensures exists x :: x in rows && x.review.location == city && m <= x.review.rating
  {
    GroupNonEmpty(rows, city);
    Mean(Group(rows, city))
  }

  function StatFor(rows: seq<Row>, city: string): CityStat
    requires city in Locations(rows)
  {
    GroupNonEmpty(rows, city);
    var g := Group(rows, city);
    CityStat(city, CityMean(rows, city), g[0].coord, |g|)
  }

  function StatsFor(rows: seq<Row>, keys: seq<string>): (r: seq<CityStat>)
    requires forall k :: k in keys ==> k in Locations(rows)
    ensures |r| == |keys|
    ensures forall i :: 0 <= i < |keys| ==> r[i] == StatFor(rows, keys[i])
  {
    if keys == [] then [] else [StatFor(rows, keys[0])] + StatsFor(rows, keys[1..])
  }

  function CityOf(c: CityStat): string { c.location }

  /** The `Location` column of the statistics. */
  function StatLocations(stats: seq<CityStat>): seq<string> { Project(stats, CityOf) }

  /** Total of the order counts. */
  function SumOrders(stats: seq<CityStat>): nat
  {
    if stats == [] then 0 else stats[0].orderCount + SumOrders(stats[1..])
  }

  lemma {:induction false} SumOrdersFor(rows: seq<Row>, keys: seq<string>)
    requires forall k :: k in keys ==> k in Locations(rows)
    ensures SumOrders(StatsFor(rows, keys)) == SumOcc(keys, Locations(rows))
  {
    if keys != [] {
      GroupSize(rows, keys[0]);
      SumOrdersFor(rows, keys[1..]);
    }
  }

  /** `groupby('Location').agg(mean Rating, first Latitude/Longitude, count Order Type)`:
      one entry per city present, ascending by city name. */
  function CityStats(rows: seq<Row>): (r: seq<CityStat>)
    ensures Ascending(StatLocations(r))
    ensures forall city :: city in StatLocations(r) <==> city in Locations(rows)
    ensures forall i :: 0 <= i < |r| ==>
      && r[i].location in Locations(rows)
      && r[i] == StatFor(rows, r[i].location)
      && r[i].orderCount == Occ(Locations(rows), r[i].location) > 0
      && r[i].meanRating == CityMean(rows, r[i].location)
    ensures SumOrders(r) == |rows|
  {
    var keys := SortedKeys(Locations(rows));
    var r := StatsFor(rows, keys);
    assert StatLocations(r) == keys;
    AscendingNoDup(keys);
    SumOrdersFor(rows, keys);
    SumOccCovers(keys, Locations(rows));
    assert forall i :: 0 <= i < |r| ==> r[i].orderCount == Occ(Locations(rows), r[i].location) > 0 by {
      forall i | 0 <= i < |r| ensures r[i].orderCount == Occ(Locations(rows), r[i].location) > 0 {
        GroupSize(rows, keys[i]);
        GroupNonEmpty(rows, keys[i]);
      }
    }
    r
  }

  /** On a geocoded table each city's entry carries the city's coordinates from the static table. */
  lemma CityStatsCoordinates(rows: seq<Row>)
    ensures Geocoded(rows) ==> forall i :: 0 <= i < |CityStats(rows)| ==>
      CityStats(rows)[i].coord == CITY_COORDS[CityStats(rows)[i].location]
  {
    var r := CityStats(rows);
    forall i | 0 <= i < |r| && Geocoded(rows) ensures r[i].coord == CITY_COORDS[r[i].location] {
      GroupNonEmpty(rows, r[i].location);
      var g := Group(rows, r[i].location);
      assert g[0] in g;
    }
  }

  /** A mean of ratings in [0, 5] stays in [0, 5]. */
  lemma CityMeanInRange(rows: seq<Row>)
    requires forall x :: x in rows ==> 0.0 <= x.review.rating <= 5.0
    ensures forall i :: 0 <= i < |CityStats(rows)| ==> 0.0 <= CityStats(rows)[i].meanRating <= 5.0
  {
    var r := CityStats(rows);
    forall i | 0 <= i < |r| ensures 0.0 <= r[i].meanRating <= 5.0 {
      GroupNonEmpty(rows, r[i].location);
      MeanWithin(Group(rows, r[i].location), 0.0, 5.0);
    }
  }

  /** A value of a column with its number of occurrences. */
  datatype KeyCount = KeyCount(key: string, count: nat)

  function KeyOf(c: KeyCount): string { c.key }

  function Keys(counts: seq<KeyCount>): seq<string> { Project(counts, KeyOf) }

  function SumCounts(counts: seq<KeyCount>): nat
  {
    if counts == [] then 0 else counts[0].count + SumCounts(counts[1..])
  }

  /** The occurrence count in `column` of each of `keys`, in the order of `keys`. */
  function CountsFor(column: seq<string>, keys: seq<string>): (r: seq<KeyCount>)
    ensures |r| == |keys|
    ensures forall i :: 0 <= i < |keys| ==> r[i] == KeyCount(keys[i], Occ(column, keys[i]))
    ensures SumCounts(r) == SumOcc(keys, column)
  {
    if keys == [] then [] else [KeyCount(keys[0], Occ(column, keys[0]))] + CountsFor(column, keys[1..])
  }

  /** `groupby('Location')['Order Type'].count()`: the number of orders per city, ascending by
      city name. */
  function OrderVolume(rows: seq<Row>): (r: seq<KeyCount>)
    ensures Ascending(Keys(r))
    ensures forall city :: city in Keys(r) <==> city in Locations(rows)
    ensures forall i :: 0 <= i < |r| ==> r[i].count == Occ(Locations(rows), r[i].key)
    ensures SumCounts(r) == |rows|
  {
    var keys := SortedKeys(Locations(rows));
    var r := CountsFor(Locations(rows), keys);
    assert Keys(r) == keys;
    AscendingNoDup(keys);
    SumOccCovers(keys, Locations(rows));
    r
  }

  /** The per-city order counts of the map statistics and of the order-volume chart agree,
      city by city and in the same order. */
  lemma OrderVolumeMatchesCityStats(rows: seq<Row>)
    ensures |OrderVolume(rows)| == |CityStats(rows)|
    ensures forall i :: 0 <= i < |CityStats(rows)| ==>
      OrderVolume(rows)[i] == KeyCount(CityStats(rows)[i].location, CityStats(rows)[i].orderCount)
  {
    var keys := SortedKeys(Locations(rows));
    assert CityStats(rows) == StatsFor(rows, keys);
    assert OrderVolume(rows) == CountsFor(Locations(rows), keys);
  }

  /** Counts never increase along the sequence. */
  ghost predicate NonIncreasing(counts: seq<KeyCount>)
  {
    forall i, j :: 0 <= i < j < |counts| ==> counts[i].count >= counts[j].count
  }

  /** No value is listed twice. */
  ghost predicate DistinctKeys(counts: seq<KeyCount>)
  {
    forall i, j :: 0 <= i < j < |counts| ==> counts[i].key != counts[j].key
  }

  /** Places `e` before the first entry with a count not above its own. */
  function InsertByCount(e: KeyCount, s: seq<KeyCount>): (r: seq<KeyCount>)
    requires NonIncreasing(s)
    ensures NonIncreasing(r)
    ensures multiset(r) == multiset(s) + multiset{e}
    ensures |r| == |s| + 1
    ensures forall x :: x in r <==> x == e || x in s
    ensures SumCounts(r) == e.count + SumCounts(s)
  {
    if s == [] || e.count >= s[0].count then
      InsertFront(e, s);
      MultisetMembers([e] + s, s, e);
      [e] + s
    else
      var t := InsertByCount(e, s[1..]);
      assert s == [s[0]] + s[1..];
      InsertBehind(s[0], s[1..], e, t);
      MultisetMembers([s[0]] + t, s, e);
      [s[0]] + t
  }

  lemma InsertFront(e: KeyCount, s: seq<KeyCount>)
    requires NonIncreasing(s)
    requires s == [] || e.count >= s[0].count
    ensures NonIncreasing([e] + s)
    ensures multiset([e] + s) == multiset(s) + multiset{e}
    ensures SumCounts([e] + s) == e.count + SumCounts(s)
  {
    assert ([e] + s)[1..] == s;
    forall x | x in s ensures e.count >= x.count {
      var j :| 0 <= j < |s| && s[j] == x;
      if j > 0 {
        assert s[0].count >= s[j].count;
      }
    }
    NonIncreasingCons(e, s);
  }

  /** `e` goes behind a head `h` with a larger count: inserting it into the tail suffices. */
  lemma InsertBehind(h: KeyCount, u: seq<KeyCount>, e: KeyCount, t: seq<KeyCount>)
    requires NonIncreasing([h] + u) && e.count < h.count
    requires NonIncreasing(t) && multiset(t) == multiset(u) + multiset{e}
    requires SumCounts(t) == e.count + SumCounts(u)
    ensures NonIncreasing([h] + t)
    ensures multiset([h] + t) == multiset([h] + u) + multiset{e}
    ensures SumCounts([h] + t) == e.count + SumCounts([h] + u)
  {
    assert ([h] + t)[1..] == t && ([h] + u)[1..] == u;
    forall x | x in t ensures h.count >= x.count {
      assert x in multiset(t);
      if x != e {
        assert x in u;
        var j :| 0 <= j < |u| && u[j] == x;
        assert ([h] + u)[j + 1] == x;
      }
    }
    NonIncreasingCons(h, t);
  }

  /** A sequence holding the elements of `s` and one more `e` has those members and one more
      element. */
  lemma MultisetMembers(r: seq<KeyCount>, s: seq<KeyCount>, e: KeyCount)
    requires multiset(r) == multiset(s) + multiset{e}
    ensures |r| == |s| + 1
    ensures forall x :: x in r <==> x == e || x in s
  {
    assert |multiset(r)| == |r| && |multiset(s)| == |s|;
    forall x ensures x in r <==> x == e || x in s {
      assert x in r <==> x in multiset(r);
      assert x in s <==> x in multiset(s);
    }
  }

  /** An entry with a count at least every count of a non-increasing list may go in front. */
  lemma NonIncreasingCons(h: KeyCount, t: seq<KeyCount>)
    requires NonIncreasing(t)
    requires forall x :: x in t ==> h.count >= x.count
    ensures NonIncreasing([h] + t)
  {
    var r := [h] + t;
    forall i, j | 0 <= i < j < |r| ensures r[i].count >= r[j].count {
      assert r[j] == t[j - 1];
      if i > 0 {
        assert r[i] == t[i - 1];
      } else {
        assert t[j - 1] in t;
      }
    }
  }

  lemma {:induction false} InsertKeepsDistinctKeys(e: KeyCount, s: seq<KeyCount>)
    requires NonIncreasing(s) && DistinctKeys(s)
    requires forall x :: x in s ==> x.key != e.key
    ensures DistinctKeys(InsertByCount(e, s))
  {
    if s != [] && e.count < s[0].count {
      InsertKeepsDistinctKeys(e, s[1..]);
      var t := InsertByCount(e, s[1..]);
      assert forall x :: x in t ==> x.key != s[0].key;
    }
  }

  /** Stable sort by count, largest first. */
  function SortByCount(s: seq<KeyCount>): (r: seq<KeyCount>)
    ensures NonIncreasing(r)
    ensures multiset(r) == multiset(s)
    ensures |r| == |s|
    ensures forall x :: x in r <==> x in s
    ensures SumCounts(r) == SumCounts(s)
  {
    if s == [] then []
    else
      assert s == [s[0]] + s[1..];
      InsertByCount(s[0], SortByCount(s[1..]))
  }

  lemma {:induction false} SortKeepsDistinctKeys(s: seq<KeyCount>)
    requires DistinctKeys(s)
    ensures DistinctKeys(SortByCount(s))
  {
    if s != [] {
      SortKeepsDistinctKeys(s[1..]);
      var t := SortByCount(s[1..]);
      assert forall x :: x in t ==> x.key != s[0].key;
      InsertKeepsDistinctKeys(s[0], t);
    }
  }

  /** `value_counts()` of the `Order Type` column: every order type present exactly once with
      its number of rows, largest count first. */
  function OrderTypeDistribution(rows: seq<Row>): (r: seq<KeyCount>)
    ensures NonIncreasing(r)
    ensures DistinctKeys(r)
    ensures forall t :: t in Keys(r) <==> t in OrderTypes(rows)
    ensures forall i :: 0 <= i < |r| ==> r[i].count == Occ(OrderTypes(rows), r[i].key) > 0
    ensures SumCounts(r) == |rows|
  {
    var keys := Distinct(OrderTypes(rows));
    var u := CountsFor(OrderTypes(rows), keys);
    var r := SortByCount(u);
    SumOccCovers(keys, OrderTypes(rows));
    DistributionFacts(OrderTypes(rows), keys, u, r);
    SortKeepsDistinctKeys(u);
    r
  }

  lemma DistributionFacts(column: seq<string>, keys: seq<string>, u: seq<KeyCount>, r: seq<KeyCount>)
    requires keys == Distinct(column) && u == CountsFor(column, keys)
    requires forall x :: x in r <==> x in u
    ensures DistinctKeys(u)
    ensures forall t :: t in Keys(r) <==> t in column
    ensures forall i :: 0 <= i < |r| ==> r[i].count == Occ(column, r[i].key) > 0
  {
    forall t ensures t in Keys(r) <==> t in column {
      ProjectMember(r, KeyOf, t);
      if t in column {
        var i :| 0 <= i < |keys| && keys[i] == t;
        assert u[i] in r;
      }
    }
    forall i | 0 <= i < |r| ensures r[i].count == Occ(column, r[i].key) > 0 {
      assert r[i] in u;
      var j :| 0 <= j < |u| && u[j] == r[i];
      OccPositive(column, keys[j]);
    }
  }
}
