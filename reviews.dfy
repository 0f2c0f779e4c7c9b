/** The review table: one record per delivery review, the static table of city coordinates, and
    the columns of a loaded table. */
module Reviews {
  import opened Seqs

  /** One row of the reviews file: `Agent Name`, `Location`, `Order Type`, `Rating`. */
  datatype Review = Review(agent: string, location: string, orderType: string, rating: real)

  /** A latitude/longitude pair from the static city table. */
  datatype Coord = Coord(latitude: real, longitude: real)

  /** A loaded row: the review with its `Latitude` and `Longitude` columns attached. */
  datatype Row = Row(review: Review, coord: Coord)

  /** The ten cities the loader knows, with their coordinates. */
  const CITY_COORDS: map<string, Coord> := map[
    "Delhi" := Coord(28.6139, 77.2090),
    "Mumbai" := Coord(19.0760, 72.8777),
    "Bangalore" := Coord(12.9716, 77.5946),
    "Hyderabad" := Coord(17.3850, 78.4867),
    "Chennai" := Coord(13.0827, 80.2707),
    "Kolkata" := Coord(22.5726, 88.3639),
    "Ahmedabad" := Coord(23.0225, 72.5714),
    "Pune" := Coord(18.5204, 73.8567),
    "Jaipur" := Coord(26.9124, 75.7873),
    "Lucknow" := Coord(26.8467, 80.9462)
  ]

  /** Every row carries the coordinates of its city from the static table. */
  ghost predicate Geocoded(rows: seq<Row>)
  {
    forall x :: x in rows ==> x.review.location in CITY_COORDS && x.coord == CITY_COORDS[x.review.location]
  }

  function Agent(x: Row): string { x.review.agent }
  function Location(x: Row): string { x.review.location }
  function OrderType(x: Row): string { x.review.orderType }

  /** The `Location` column. */
  function Locations(rows: seq<Row>): seq<string> { Project(rows, Location) }

  /** The `Agent Name` column. */
  function Agents(rows: seq<Row>): seq<string> { Project(rows, Agent) }

  /** The `Order Type` column. */
  function OrderTypes(rows: seq<Row>): seq<string> { Project(rows, OrderType) }

  /** Sum of the `Rating` column. */
  function SumRatings(rows: seq<Row>): real
  {
    if rows == [] then 0.0 else rows[0].review.rating + SumRatings(rows[1..])
  }

  /** Mean of the `Rating` column of a non-empty set of rows: it lies between the lowest and the
      highest rating. */
  function Mean(rows: seq<Row>): (m: real)
    requires |rows| > 0
    ensures exists x :: x in rows && x.review.rating <= m
    ensures exists x :: x in rows && m <= x.review.rating
  {
    var lo := Lowest(rows);
    var hi := Highest(rows);
    QuotientWithin(rows, lo.review.rating, hi.review.rating);
    SumRatings(rows) / (|rows| as real)
  }

  /** The sum of ratings that all lie in [lo, hi], divided by their number, lies in [lo, hi]. */
  lemma QuotientWithin(rows: seq<Row>, lo: real, hi: real)
    requires |rows| > 0
    requires forall x :: x in rows ==> lo <= x.review.rating <= hi
    ensures lo <= SumRatings(rows) / (|rows| as real) <= hi
  {
    SumAtLeast(rows, lo);
    SumAtMost(rows, hi);
    QuotientAtLeast(SumRatings(rows), |rows| as real, lo);
    QuotientAtMost(SumRatings(rows), |rows| as real, hi);
  }

  /** A row with the lowest rating. */
  function Lowest(rows: seq<Row>): (x: Row)
    requires |rows| > 0
    ensures x in rows && forall y :: y in rows ==> x.review.rating <= y.review.rating
  {
    if |rows| == 1 then rows[0]
    else
      var t := Lowest(rows[1..]);
      assert rows == [rows[0]] + rows[1..];
      if rows[0].review.rating <= t.review.rating then rows[0] else t
  }

  /** A row with the highest rating. */
  function Highest(rows: seq<Row>): (x: Row)
    requires |rows| > 0
    ensures x in rows && forall y :: y in rows ==> y.review.rating <= x.review.rating
  {
    if |rows| == 1 then rows[0]
    else
      var t := Highest(rows[1..]);
      assert rows == [rows[0]] + rows[1..];
      if t.review.rating <= rows[0].review.rating then rows[0] else t
  }

  /** The mean of ratings that all lie in [lo, hi] lies in [lo, hi]. */
  lemma MeanWithin(rows: seq<Row>, lo: real, hi: real)
    requires |rows| > 0
    requires forall x :: x in rows ==> lo <= x.review.rating <= hi
    ensures lo <= Mean(rows) <= hi
  {
    QuotientWithin(rows, lo, hi);
  }

  lemma QuotientAtLeast(total: real, n: real, lo: real)
    requires n > 0.0 && lo * n <= total
    ensures lo <= total / n
  {
  }

  lemma QuotientAtMost(total: real, n: real, hi: real)
    requires n > 0.0 && total <= hi * n
    ensures total / n <= hi
  {
  }

  lemma {:induction false} SumAtLeast(rows: seq<Row>, lo: real)
    requires forall i :: 0 <= i < |rows| ==> lo <= rows[i].review.rating
    ensures lo * (|rows| as real) <= SumRatings(rows)
  {
    if rows != [] {
      SumAtLeast(rows[1..], lo);
      var m := (|rows| - 1) as real;
      assert lo * (m + 1.0) == lo * m + lo;
    }
  }

  lemma {:induction false} SumAtMost(rows: seq<Row>, hi: real)
    requires forall i :: 0 <= i < |rows| ==> rows[i].review.rating <= hi
    ensures SumRatings(rows) <= hi * (|rows| as real)
  {
    if rows != [] {
      SumAtMost(rows[1..], hi);
      var m := (|rows| - 1) as real;
      assert hi * (m + 1.0) == hi * m + hi;
    }
  }

  /** The static table has exactly ten cities. */
  lemma TenCities()
    ensures |CITY_COORDS| == 10
  {
    var keys := ["Delhi", "Mumbai", "Bangalore", "Hyderabad", "Chennai", "Kolkata", "Ahmedabad", "Pune", "Jaipur", "Lucknow"];
    assert CITY_COORDS.Keys == ToSet(keys);
    assert NoDup(keys);
    NoDupCardinality(keys);
  }
}
