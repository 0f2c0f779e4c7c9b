/** The views of dashboard.py over the loaded table `df`: each view filters `df` by the two
    selection widgets (only the option `'All'` leaves a column unconstrained) and then computes
    the map markers, the order-volume chart, the stat cards, the summary panel or the order-type
    table. The widget values arrive as parameters; the rendering itself is not modelled. */
module Dashboard {
  import opened Wrappers
  import opened Seqs
  import opened Strings
  import opened Reviews
  import opened Filtering
  import opened Aggregates
  import opened Ranking
  import DeliveryService

  /** The filter repeated at the top of every view. */
  function FilterFrame(df: seq<Row>, agent: string, orderType: string): (r: seq<Row>)
    ensures forall x :: x in r <==>
      && x in df
      && (agent == "All" || x.review.agent == agent)
      && (orderType == "All" || x.review.orderType == orderType)
    ensures var p := FilterPred(WidgetFilter(agent), WidgetFilter(orderType));
      SelectionOf(r, df, p, Selected(df, p))
    ensures agent == "All" && orderType == "All" ==> r == df
  {
    FilterSelects(df, WidgetFilter(agent), WidgetFilter(orderType));
    FilterNothing(df);
    Filter(df, WidgetFilter(agent), WidgetFilter(orderType))
  }

  /** Apart from the empty string, which the API classes ignore and the widgets match literally,
      the dashboard filter and `get_filtered_data` keep the same rows. */
  lemma FilterAgreesWithApi(api: DeliveryService.DeliveryApi, agent: string, orderType: string)
    requires agent != "" && orderType != ""
    ensures FilterFrame(api.data, agent, orderType) == api.GetFilteredData(Some(agent), Some(orderType))
  {
    assert WidgetFilter(agent) == ApiFilter(Some(agent));
    assert WidgetFilter(orderType) == ApiFilter(Some(orderType));
  }

  /** Marker colours; the legend calls the middle band yellow, the markers are drawn orange. */
  datatype Colour = Red | Orange | Green

  /** The colour of a city's marker from its mean rating. */
  function MarkerColour(rating: real): (c: Colour)
    ensures c == Red <==> rating < 3.0
    ensures c == Orange <==> 3.0 <= rating < 4.0
    ensures c == Green <==> 4.0 <= rating
  {
    if rating < 3.0 then Red
    else if rating < 4.0 then Orange
    else Green
  }

  /** The position of a colour from worst to best. */
  function Band(c: Colour): nat
  {
    match c
    case Red => 0
    case Orange => 1
    case Green => 2
  }

  /** A better rating never gets a worse colour. */
  lemma ColourMonotone(a: real, b: real)
    requires a <= b
    ensures Band(MarkerColour(a)) <= Band(MarkerColour(b))
  {
  }

  /** One map marker: where it stands, its colour, and the rating and order count of its popup. */
  datatype Marker = Marker(location: string, coord: Coord, colour: Colour, meanRating: real, orders: nat)

  function MarkerCity(m: Marker): string { m.location }

  function MarkerLocations(markers: seq<Marker>): seq<string> { Project(markers, MarkerCity) }

  /** `create_map_pane`: one marker per city of the filtered rows, in the order of the
      per-city statistics (ascending city name), coloured by the city's mean rating. */
  method CreateMapPane(df: seq<Row>, agent: string, orderType: string) returns (markers: seq<Marker>)
    ensures MarkersFor(markers, CityStats(FilterFrame(df, agent, orderType)))
    ensures MarkersOfRows(markers, FilterFrame(df, agent, orderType))
    ensures Geocoded(df) ==> PlacedAtCities(markers)
  {
    var stats := CityStats(FilterFrame(df, agent, orderType));
    markers := DrawMarkers(stats);
    MapPaneFacts(markers, df, agent, orderType);
  }

  /** The loop of `create_map_pane`: a marker for each row of the per-city statistics, in order. */
  method DrawMarkers(stats: seq<CityStat>) returns (markers: seq<Marker>)
    ensures MarkersFor(markers, stats)
  {
    markers := [];
    var i := 0;
    while i < |stats|
      invariant 0 <= i <= |stats|
      invariant MarkersFor(markers, stats[..i])
    {
      var s := stats[i];
      markers := markers + [Marker(s.location, s.coord, MarkerColour(s.meanRating), s.meanRating, s.orderCount)];
      i := i + 1;
    }
    assert stats[..i] == stats;
  }

  lemma MapPaneFacts(markers: seq<Marker>, df: seq<Row>, agent: string, orderType: string)
    requires MarkersFor(markers, CityStats(FilterFrame(df, agent, orderType)))
    ensures MarkersOfRows(markers, FilterFrame(df, agent, orderType))
    ensures Geocoded(df) ==> PlacedAtCities(markers)
  {
    var rows := FilterFrame(df, agent, orderType);
    MarkersMeaning(markers, rows);
    MarkersCoordinates(markers, rows);
    assert Geocoded(df) ==> Geocoded(rows);
  }

  /** Every marker stands at its city's coordinates from the static table. */
  ghost predicate PlacedAtCities(markers: seq<Marker>)
  {
    forall i :: 0 <= i < |markers| ==>
      markers[i].location in CITY_COORDS && markers[i].coord == CITY_COORDS[markers[i].location]
  }

  /** The markers drawn for a sequence of per-city statistics, one each, in order. */
  ghost predicate MarkersFor(markers: seq<Marker>, stats: seq<CityStat>)
  {
    |markers| == |stats| && forall i :: 0 <= i < |stats| ==> MarkerOf(markers[i], stats[i])
  }

  /** The marker drawn for one row of the per-city statistics. */
  predicate MarkerOf(m: Marker, s: CityStat)
  {
    && m.location == s.location
    && m.coord == s.coord
    && m.meanRating == s.meanRating
    && m.orders == s.orderCount
    && m.colour == MarkerColour(s.meanRating)
  }

  /** The markers of a set of rows: one per city, ascending by name, each with the city's number
      of rows, its mean rating and the colour of that mean. */
  ghost predicate MarkersOfRows(markers: seq<Marker>, rows: seq<Row>)
  {
    && Ascending(MarkerLocations(markers))
    && (forall city :: city in MarkerLocations(markers) <==> city in Locations(rows))
    && (forall i :: 0 <= i < |markers| ==>
          && markers[i].location in Locations(rows)
          && markers[i].orders == Occ(Locations(rows), markers[i].location)
          && markers[i].meanRating == CityMean(rows, markers[i].location)
          && markers[i].colour == MarkerColour(markers[i].meanRating))
  }

  lemma MarkersMeaning(markers: seq<Marker>, rows: seq<Row>)
    requires MarkersFor(markers, CityStats(rows))
    ensures MarkersOfRows(markers, rows)
  {
    assert MarkerLocations(markers) == StatLocations(CityStats(rows));
  }

  lemma MarkersCoordinates(markers: seq<Marker>, rows: seq<Row>)
    requires MarkersFor(markers, CityStats(rows))
    ensures Geocoded(rows) ==> PlacedAtCities(markers)
  {
    var stats := CityStats(rows);
    CityStatsCoordinates(rows);
    forall i | 0 <= i < |markers| && Geocoded(rows)
      ensures markers[i].location in CITY_COORDS && markers[i].coord == CITY_COORDS[markers[i].location]
    {
      assert MarkerOf(markers[i], stats[i]);
      assert stats[i].coord == CITY_COORDS[stats[i].location];
    }
  }

  /** `create_main_panel`: the map and the order-volume chart of the same filtered rows. Both
      list the cities of those rows in the same order with their order counts, which add up to
      the number of filtered rows. */
  method CreateMainPanel(df: seq<Row>, agent: string, orderType: string) returns (markers: seq<Marker>, volume: seq<KeyCount>)
    ensures MarkersOfRows(markers, FilterFrame(df, agent, orderType))
    ensures Geocoded(df) ==> PlacedAtCities(markers)
    ensures volume == OrderVolume(FilterFrame(df, agent, orderType))
    ensures |markers| == |volume|
    ensures forall i :: 0 <= i < |markers| ==>
      markers[i].location == volume[i].key && markers[i].orders == volume[i].count
    ensures SumCounts(volume) == |FilterFrame(df, agent, orderType)|
  {
    markers := CreateMapPane(df, agent, orderType);
    volume := OrderVolume(FilterFrame(df, agent, orderType));
    MapMatchesChart(markers, FilterFrame(df, agent, orderType));
  }

  /** The markers of a set of rows and its order-volume chart name the same cities in the same
      order with the same counts. */
  lemma MapMatchesChart(markers: seq<Marker>, rows: seq<Row>)
    requires MarkersFor(markers, CityStats(rows))
    ensures |markers| == |OrderVolume(rows)|
    ensures forall i :: 0 <= i < |markers| ==>
      markers[i].location == OrderVolume(rows)[i].key && markers[i].orders == OrderVolume(rows)[i].count
    ensures SumCounts(OrderVolume(rows)) == |rows|
  {
    OrderVolumeMatchesCityStats(rows);
  }

  /** `create_stat_cards`: the same figures as `get_top_stats`, over the widget-filtered rows. */
  function StatCards(df: seq<Row>, agent: string, orderType: string): (t: TopStats)
    ensures IsTopStats(t, FilterFrame(df, agent, orderType))
  {
    Top(FilterFrame(df, agent, orderType))
  }

  /** The stat cards and `get_top_stats` agree when neither selection is the empty string. */
  lemma StatCardsAgreeWithApi(api: DeliveryService.DeliveryApi, agent: string, orderType: string)
    requires agent != "" && orderType != ""
    ensures StatCards(api.data, agent, orderType) == api.GetTopStats(Some(agent), Some(orderType))
  {
    FilterAgreesWithApi(api, agent, orderType);
  }

  /** `get_summary_stats`: the summary figures of the widget-filtered rows. */
  function SummaryStats(df: seq<Row>, agent: string, orderType: string): (s: Summary)
    ensures var rows := FilterFrame(df, agent, orderType);
      && s.totalOrders == |rows|
      && s.citiesCovered == |ToSet(Locations(rows))|
      && s.activeAgents == |ToSet(Agents(rows))|
      && (rows == [] ==> s.averageRating == None && s.mostCommonOrderType == NOT_AVAILABLE)
      && (rows != [] ==>
            && s.averageRating == Some(Mean(rows))
            && s.mostCommonOrderType in OrderTypes(rows)
            && (forall t :: t in OrderTypes(rows) ==> Occ(OrderTypes(rows), t) <= Occ(OrderTypes(rows), s.mostCommonOrderType)))
    ensures agent == "All" && orderType == "All" ==> s.totalOrders == |df|
  {
    Summarize(FilterFrame(df, agent, orderType))
  }

  /** The order-type table of the detailed view: `value_counts()` of the filtered rows. */
  function DetailedOrderTypes(df: seq<Row>, agent: string, orderType: string): (r: seq<KeyCount>)
    ensures var rows := FilterFrame(df, agent, orderType);
      && NonIncreasing(r)
      && DistinctKeys(r)
      && (forall t :: t in Keys(r) <==> t in OrderTypes(rows))
      && (forall i :: 0 <= i < |r| ==> r[i].count == Occ(OrderTypes(rows), r[i].key))
      && SumCounts(r) == |rows|
  {
    OrderTypeDistribution(FilterFrame(df, agent, orderType))
  }

  /** `opts` lists `'All'` and then every value of the column once, in the order of first
      appearance. */
  ghost predicate OptionsOf(opts: seq<string>, column: seq<string>)
  {
    && |opts| >= 1 && opts[0] == "All"
    && NoDup(opts[1..])
    && (forall v :: v in opts[1..] <==> v in column)
    && (forall i, j :: 1 <= i < j < |opts| ==> IndexOf(column, opts[i]) < IndexOf(column, opts[j]))
  }

  /** The options of a selection widget. */
  function FilterOptions(column: seq<string>): (opts: seq<string>)
    ensures OptionsOf(opts, column)
  {
    DistinctFirstSeen(column);
    var opts := ["All"] + Distinct(column);
    assert opts[1..] == Distinct(column);
    opts
  }

  /** The options of the agent widget. */
  function AgentOptions(df: seq<Row>): (opts: seq<string>)
    ensures OptionsOf(opts, Agents(df))
  {
    FilterOptions(Agents(df))
  }

  /** The options of the order-type widget. */
  function OrderTypeOptions(df: seq<Row>): (opts: seq<string>)
    ensures OptionsOf(opts, OrderTypes(df))
  {
    FilterOptions(OrderTypes(df))
  }

  /** Picking any listed agent (with every order type) leaves at least one row to show. */
  lemma AgentOptionNonEmpty(df: seq<Row>, agent: string)
    requires agent in AgentOptions(df)[1..]
    ensures FilterFrame(df, agent, "All") != []
  {
    ProjectMember(df, Agent, agent);
    var x :| x in df && Agent(x) == agent;
    assert x in FilterFrame(df, agent, "All");
  }

  /** Picking any listed order type (with every agent) leaves at least one row to show. */
  lemma OrderTypeOptionNonEmpty(df: seq<Row>, orderType: string)
    requires orderType in OrderTypeOptions(df)[1..]
    ensures FilterFrame(df, "All", orderType) != []
  {
    ProjectMember(df, OrderType, orderType);
    var x :| x in df && OrderType(x) == orderType;
    assert x in FilterFrame(df, "All", orderType);
  }
}
