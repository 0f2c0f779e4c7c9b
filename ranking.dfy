/** Scalar results over a (filtered) review table: the "top" cities of the stat cards and
    `get_top_stats`, and the summary figures of the dashboard's side panel. */
module Ranking {
  import opened Wrappers
  import opened Seqs
  import opened Strings
  import opened Reviews
  import opened Aggregates

  /** The city with most orders and its count, the city with the best mean rating and that mean. */
  datatype TopStats = TopStats(topCity: string, topCityOrders: nat, topRatingCity: string, topCityRating: real)

  /** What an empty table yields instead of a city. */
  const NOT_AVAILABLE := "N/A"

  const NO_TOP_STATS := TopStats(NOT_AVAILABLE, 0, NOT_AVAILABLE, 0.0)

  function OrdersKey(c: CityStat): real { c.orderCount as real }

  function RatingKey(c: CityStat): real { c.meanRating }

  /** `idxmax` over the per-city series: as the series is indexed by ascending city name and
      `idxmax` takes the first maximum, the winner has the largest value and, among cities with
      that value, the smallest name. */
  lemma {:induction false} FirstMaxCity(rows: seq<Row>, f: CityStat -> real)
    requires rows != []
    ensures |CityStats(rows)| > 0
    ensures var stats := CityStats(rows);
      var top := stats[FirstMaxBy(stats, f)];
      forall city :: city in Locations(rows) ==>
        && f(StatFor(rows, city)) <= f(top)
        && (f(StatFor(rows, city)) == f(top) ==> city == top.location || Less(top.location, city))
  {
    var stats := CityStats(rows);
    assert Locations(rows)[0] in Locations(rows);
    assert Locations(rows)[0] in StatLocations(stats);
    var i := FirstMaxBy(stats, f);
    var top := stats[i];
    forall city | city in Locations(rows)
      ensures f(StatFor(rows, city)) <= f(top)
      ensures f(StatFor(rows, city)) == f(top) ==> city == top.location || Less(top.location, city)
    {
      var k := CityIndex(rows, city);
      if f(stats[k]) == f(top) && k != i {
        assert k > i;
        assert Less(StatLocations(stats)[i], StatLocations(stats)[k]);
      }
    }
  }

  /** The position of a city's entry in the per-city statistics. */
  lemma CityIndex(rows: seq<Row>, city: string) returns (k: nat)
    requires city in Locations(rows)
    ensures k < |CityStats(rows)| && CityStats(rows)[k] == StatFor(rows, city)
    ensures StatLocations(CityStats(rows))[k] == city
  {
    var stats := CityStats(rows);
    assert city in StatLocations(stats);
    k :| 0 <= k < |stats| && StatLocations(stats)[k] == city;
  }

  /** `t` holds the top figures of `rows`: the sentinel on an empty table, otherwise a busiest
      city with its number of rows and a best-rated city with its mean rating, each maximal over
      the cities present, ties going to the city whose name sorts first. */
  ghost predicate IsTopStats(t: TopStats, rows: seq<Row>)
  {
    && (rows == [] ==> t == NO_TOP_STATS)
    && (rows != [] ==>
      && t.topCity in Locations(rows)
      && t.topCityOrders == Occ(Locations(rows), t.topCity)
      && (forall city :: city in Locations(rows) ==> Occ(Locations(rows), city) <= t.topCityOrders)
      && (forall city :: city in Locations(rows) && Occ(Locations(rows), city) == t.topCityOrders ==>
            city == t.topCity || Less(t.topCity, city))
      && t.topRatingCity in Locations(rows)
      && t.topCityRating == CityMean(rows, t.topRatingCity)
      && (forall city :: city in Locations(rows) ==> CityMean(rows, city) <= t.topCityRating)
      && (forall city :: city in Locations(rows) && CityMean(rows, city) == t.topCityRating ==>
            city == t.topRatingCity || Less(t.topRatingCity, city)))
  }

  /** `get_top_stats` and the stat cards: the sentinel on an empty table, otherwise the busiest
      city and the best-rated city, ties going to the alphabetically first city. */
  function Top(rows: seq<Row>): (t: TopStats)
    ensures IsTopStats(t, rows)
  {
    if rows == [] then NO_TOP_STATS
    else
      FirstMaxCity(rows, OrdersKey);
      FirstMaxCity(rows, RatingKey);
      var stats := CityStats(rows);
      var busiest := stats[FirstMaxBy(stats, OrdersKey)];
      var best := stats[FirstMaxBy(stats, RatingKey)];
      assert forall city :: city in Locations(rows) ==> StatFor(rows, city).orderCount == Occ(Locations(rows), city) by {
        forall city | city in Locations(rows) ensures StatFor(rows, city).orderCount == Occ(Locations(rows), city) {
          GroupSize(rows, city);
        }
      }
      TopStats(busiest.location, busiest.orderCount, best.location, best.meanRating)
  }

  function OccKey(column: seq<string>): string -> real
  {
    v => Occ(column, v) as real
  }

  /** `Series.mode().iloc[0]`: `mode` returns the most frequent values sorted, so the first is the
      smallest of the most frequent values. */
  function Mode(column: seq<string>): (m: string)
    requires column != []
    ensures m in column
    ensures forall v :: v in column ==> Occ(column, v) <= Occ(column, m)
    ensures forall v :: v in column && Occ(column, v) == Occ(column, m) ==> v == m || Less(m, v)
  {
    var keys := SortedKeys(column);
    assert column[0] in keys;
    var i := FirstMaxBy(keys, OccKey(column));
    assert forall v :: v in column ==> Occ(column, v) <= Occ(column, keys[i]) && (Occ(column, v) == Occ(column, keys[i]) ==> v == keys[i] || Less(keys[i], v)) by {
      forall v | v in column
        ensures Occ(column, v) <= Occ(column, keys[i])
        ensures Occ(column, v) == Occ(column, keys[i]) ==> v == keys[i] || Less(keys[i], v)
      {
        var k :| 0 <= k < |keys| && keys[k] == v;
        assert OccKey(column)(keys[k]) <= OccKey(column)(keys[i]);
        if Occ(column, v) == Occ(column, keys[i]) && k != i {
          assert !(OccKey(column)(keys[k]) < OccKey(column)(keys[i]));
          assert k > i;
        }
      }
    }
    keys[i]
  }

  /** `nunique()`: the number of distinct values of a column. */
  function CountDistinct(column: seq<string>): (n: nat)
    ensures n == |ToSet(column)|
    ensures n <= |column|
    ensures column != [] ==> n > 0
  {
    var d := Distinct(column);
    assert ToSet(d) == ToSet(column);
    NoDupCardinality(d);
    DistinctNoLonger(column);
    |d|
  }

  lemma {:induction false} DistinctNoLonger(column: seq<string>)
    ensures |Distinct(column)| <= |column|
    ensures column != [] ==> |Distinct(column)| > 0
    decreases |column|
  {
    if column != [] {
      DistinctNoLonger(column[..|column| - 1]);
      assert column[0] in Distinct(column);
    }
  }

  /** The figures of the summary panel. An empty table has no average rating. */
  datatype Summary = Summary(
    totalOrders: nat,
    averageRating: Option<real>,
    citiesCovered: nat,
    activeAgents: nat,
    mostCommonOrderType: string)

  function Summarize(rows: seq<Row>): (s: Summary)
    ensures s.totalOrders == |rows|
    ensures s.averageRating == None <==> rows == []
    ensures s.averageRating.Some? ==> s.averageRating.value == Mean(rows)
    ensures s.citiesCovered == |ToSet(Locations(rows))| && s.activeAgents == |ToSet(Agents(rows))|
    ensures rows == [] ==> s.citiesCovered == 0 && s.activeAgents == 0 && s.mostCommonOrderType == NOT_AVAILABLE
    ensures rows != [] ==>
      && s.mostCommonOrderType in OrderTypes(rows)
      && (forall t :: t in OrderTypes(rows) ==> Occ(OrderTypes(rows), t) <= Occ(OrderTypes(rows), s.mostCommonOrderType))
  {
    Summary(
      |rows|,
      if rows == [] then None else Some(Mean(rows)),
      CountDistinct(Locations(rows)),
      CountDistinct(Agents(rows)),
      if rows == [] then NOT_AVAILABLE else Mode(OrderTypes(rows)))
  }

  /** On ratings in [0, 5] the average rating lies in [0, 5]. */
  lemma AverageInRange(rows: seq<Row>)
    requires rows != []
    requires forall x :: x in rows ==> 0.0 <= x.review.rating <= 5.0
    ensures 0.0 <= Summarize(rows).averageRating.value <= 5.0
  {
    MeanWithin(rows, 0.0, 5.0);
  }

  /** Every city counted by the top statistics is covered by the summary, and the busiest city's
      count never exceeds the total. */
  lemma TopWithinSummary(rows: seq<Row>)
    requires rows != []
    ensures Top(rows).topCityOrders <= Summarize(rows).totalOrders
    ensures Summarize(rows).citiesCovered >= 1
  {
    var stats := CityStats(rows);
    assert Top(rows).topCity in StatLocations(stats);
    var k :| 0 <= k < |stats| && StatLocations(stats)[k] == Top(rows).topCity;
    SumOrdersBound(stats, k);
  }

  lemma {:induction false} SumOrdersBound(stats: seq<CityStat>, k: nat)
    requires k < |stats|
    ensures stats[k].orderCount <= SumOrders(stats)
  {
    if k > 0 {
      SumOrdersBound(stats[1..], k - 1);
    }
  }
}
