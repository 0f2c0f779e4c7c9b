/** Loading the review table: every row gets the `Latitude`/`Longitude` of its city from the
    static table, and a city outside the table aborts the load (pandas raises `KeyError` from the
    lookup inside `Series.map`, at the first offending row). */
module Loading {
  import opened Wrappers
  import opened Reviews

  /** The lookup of `city` in the static table failed. */
  datatype LoadError = UnknownLocation(city: string)

  /** The position of the first row whose city is not in the table, or |table| if there is none. */
  function FirstUnknown(table: seq<Review>): (k: nat)
    ensures k <= |table|
    ensures forall j :: 0 <= j < k ==> table[j].location in CITY_COORDS
    ensures k < |table| ==> table[k].location !in CITY_COORDS
  {
    if table == [] then 0
    else if table[0].location !in CITY_COORDS then 0
    else 1 + FirstUnknown(table[1..])
  }

  /** Adds the coordinate columns to the raw table. */
  function AttachCoordinates(table: seq<Review>): (r: Result<seq<Row>, LoadError>)
    ensures r.Success? <==> forall i :: 0 <= i < |table| ==> table[i].location in CITY_COORDS
    ensures r.Success? ==>
      && |r.value| == |table|
      && forall i :: 0 <= i < |table| ==>
           r.value[i] == Row(table[i], CITY_COORDS[table[i].location])
    ensures r.Failure? ==>
      && FirstUnknown(table) < |table|
      && r.error == UnknownLocation(table[FirstUnknown(table)].location)
  {
    if table == [] then Success([])
    else if table[0].location !in CITY_COORDS then Failure(UnknownLocation(table[0].location))
    else
      match AttachCoordinates(table[1..])
      case Failure(e) => Failure(e)
      case Success(rest) => Success([Row(table[0], CITY_COORDS[table[0].location])] + rest)
  }

  /** A successful load is geocoded: every row's coordinates are those of its city. */
  lemma LoadedRowsAreGeocoded(table: seq<Review>)
    requires AttachCoordinates(table).Success?
    ensures Geocoded(AttachCoordinates(table).value)
    ensures forall i :: 0 <= i < |table| ==> AttachCoordinates(table).value[i].review == table[i]
  {
    var rows := AttachCoordinates(table).value;
    forall x | x in rows ensures x.review.location in CITY_COORDS && x.coord == CITY_COORDS[x.review.location] {
      var i :| 0 <= i < |rows| && rows[i] == x;
    }
  }
}
