/** The `DeliveryAPI` class of delivery_api.py: it loads the review table once, attaches the
    coordinates of each row's city, and answers four queries, each over the rows that pass the
    agent and order-type filter. Queries are functions: they only read the table. */
module DeliveryService {
  import opened Wrappers
  import opened Seqs
  import opened Strings
  import opened Reviews
  import opened Loading
  import opened Filtering
  import opened Aggregates
  import opened Ranking

  class DeliveryApi {
    /** `self.data`: the loaded table with its coordinate columns. */
    var data: seq<Row>

    /** Every row carries its city's coordinates. */
    ghost predicate Valid()
      reads this
    {
      Geocoded(data)
    }

    /** Stores rows that already carry their cities' coordinates. */
    constructor FromRows(rows: seq<Row>)
      requires Geocoded(rows)
      ensures data == rows && Valid()
    {
      data := rows;
    }

    /** The constructor, given the table read from the file: attaches `Latitude` and `Longitude`
        to every row, or fails on the first row whose city is not in the static table. */
    static method Open(table: seq<Review>) returns (r: Result<DeliveryApi, LoadError>)
      ensures r.Success? <==> forall i :: 0 <= i < |table| ==> table[i].location in CITY_COORDS
      ensures r.Success? ==>
        && fresh(r.value)
        && r.value.Valid()
        && |r.value.data| == |table|
        && forall i :: 0 <= i < |table| ==> r.value.data[i] == Row(table[i], CITY_COORDS[table[i].location])
      ensures r.Failure? ==>
        && FirstUnknown(table) < |table|
        && r.error == UnknownLocation(table[FirstUnknown(table)].location)
    {
      var loaded := AttachCoordinates(table);
      if loaded.Failure? {
        return Failure(loaded.error);
      }
      LoadedRowsAreGeocoded(table);
      var api := new DeliveryApi.FromRows(loaded.value);
      r := Success(api);
    }

    /** `get_filtered_data`: the rows matching the agent and the order type, where `None`, `''`
        and `'All'` match everything; each kept row once, in table order. */
    function GetFilteredData(agent: Option<string>, orderType: Option<string>): (r: seq<Row>)
      reads this
      ensures forall x :: x in r <==>
        && x in data
        && (ApiNoFilter(agent) || agent == Some(x.review.agent))
        && (ApiNoFilter(orderType) || orderType == Some(x.review.orderType))
      ensures var p := FilterPred(ApiFilter(agent), ApiFilter(orderType));
        SelectionOf(r, data, p, Selected(data, p))
      ensures ApiNoFilter(agent) && ApiNoFilter(orderType) ==> r == data
      ensures Geocoded(data) ==> Geocoded(r)
    {
      FilterSelects(data, ApiFilter(agent), ApiFilter(orderType));
      FilterNothing(data);
      Filter(data, ApiFilter(agent), ApiFilter(orderType))
    }

    /** `get_city_stats`: one entry per city of the filtered rows, ascending by name, with the
        number of those rows in the city, their mean rating and the city's coordinates. */
    function GetCityStats(agent: Option<string>, orderType: Option<string>): (r: seq<CityStat>)
      reads this
      ensures var rows := GetFilteredData(agent, orderType);
        && Ascending(StatLocations(r))
        && (forall city :: city in StatLocations(r) <==> city in Locations(rows))
        && (forall i :: 0 <= i < |r| ==>
              && r[i].location in Locations(rows)
              && r[i].orderCount == Occ(Locations(rows), r[i].location) > 0
              && r[i].meanRating == CityMean(rows, r[i].location))
        && SumOrders(r) == |rows|
      ensures Valid() ==> forall i :: 0 <= i < |r| ==> r[i].coord == CITY_COORDS[r[i].location]
    {
      CityStatsCoordinates(GetFilteredData(agent, orderType));
      CityStats(GetFilteredData(agent, orderType))
    }

    /** `get_order_type_distribution`: each order type of the filtered rows once, with its number
        of rows, largest count first. */
    function GetOrderTypeDistribution(agent: Option<string>, orderType: Option<string>): (r: seq<KeyCount>)
      reads this
      ensures var rows := GetFilteredData(agent, orderType);
        && NonIncreasing(r)
        && DistinctKeys(r)
        && (forall t :: t in Keys(r) <==> t in OrderTypes(rows))
        && (forall i :: 0 <= i < |r| ==> r[i].count == Occ(OrderTypes(rows), r[i].key))
        && SumCounts(r) == |rows|
    {
      OrderTypeDistribution(GetFilteredData(agent, orderType))
    }

    /** `get_top_stats`: `('N/A', 0, 'N/A', 0)` when no row passes the filter; otherwise the city
        with most filtered rows and the city with the best mean rating, each with its value; a tie
        goes to the city whose name sorts first. */
    function GetTopStats(agent: Option<string>, orderType: Option<string>): (r: TopStats)
      reads this
      ensures IsTopStats(r, GetFilteredData(agent, orderType))
    {
      Top(GetFilteredData(agent, orderType))
    }
  }
}
