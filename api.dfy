/** The `DeliveryAPI` class of api.py: it holds the raw review table and answers one query,
    `get_data_by_filters`, four successive masks over a copy of the table (agent, location, order
    type, and an inclusive rating range). */
module Api {
  import opened Wrappers
  import opened Seqs
  import opened Reviews
  import opened Filtering

  /** The `(min_rating, max_rating)` pair; both ends are inclusive. */
  datatype RatingRange = RatingRange(lo: real, hi: real)

  function AgentOf(x: Review): string { x.agent }
  function LocationOf(x: Review): string { x.location }
  function OrderTypeOf(x: Review): string { x.orderType }

  /** The rating passes the range, or there is no range. */
  predicate InRange(range: Option<RatingRange>, rating: real)
  {
    match range
    case None => true
    case Some(rr) => rr.lo <= rating <= rr.hi
  }

  function RangePred(range: Option<RatingRange>): Review -> bool
  {
    (x: Review) => InRange(range, x.rating)
  }

  /** `if rating_range: ... df[(df['Rating'] >= min_rating) & (df['Rating'] <= max_rating)]`. */
  function RangeMask(s: seq<Review>, range: Option<RatingRange>): (r: seq<Review>)
    ensures r == Where(s, RangePred(range))
    ensures range.None? ==> r == s
  {
    if range.None? then
      WhereAll(s, RangePred(range));
      s
    else Where(s, RangePred(range))
  }

  /** The four constraints of a query, as one conjunction. */
  function QueryPred(agent: FilterVal, location: FilterVal, orderType: FilterVal, range: Option<RatingRange>): Review -> bool
  {
    (x: Review) => && Matches(agent, AgentOf(x)) && Matches(location, LocationOf(x))
                  && Matches(orderType, OrderTypeOf(x)) && InRange(range, x.rating)
  }

  /** The masks in the order the source applies them. */
  function Query(table: seq<Review>, agent: FilterVal, location: FilterVal, orderType: FilterVal, range: Option<RatingRange>): (r: seq<Review>)
    ensures r == Where(table, QueryPred(agent, location, orderType, range))
  {
    var a := MatchPred(agent, AgentOf);
    var l := MatchPred(location, LocationOf);
    var o := MatchPred(orderType, OrderTypeOf);
    var al: Review -> bool := x => a(x) && l(x);
    var alo: Review -> bool := x => al(x) && o(x);
    var s1 := Mask(table, agent, AgentOf);
    var s2 := Mask(s1, location, LocationOf);
    WhereWhere(table, a, l, al);
    assert s2 == Where(table, al);
    var s3 := Mask(s2, orderType, OrderTypeOf);
    WhereWhere(table, al, o, alo);
    assert s3 == Where(table, alo);
    var rg := RangePred(range);
    var q := QueryPred(agent, location, orderType, range);
    WhereWhere(table, alo, rg, q);
    RangeMask(s3, range)
  }

  /** The masks amount to one conjunction: applying them in the reverse order gives the same rows. */
  lemma QueryOrderIrrelevant(table: seq<Review>, agent: FilterVal, location: FilterVal, orderType: FilterVal, range: Option<RatingRange>)
    ensures Mask(Mask(Mask(RangeMask(table, range), orderType, OrderTypeOf), location, LocationOf), agent, AgentOf)
         == Query(table, agent, location, orderType, range)
  {
    var rg := RangePred(range);
    var o := MatchPred(orderType, OrderTypeOf);
    var l := MatchPred(location, LocationOf);
    var ro: Review -> bool := x => rg(x) && o(x);
    var rol: Review -> bool := x => ro(x) && l(x);
    var s1 := RangeMask(table, range);
    var s2 := Mask(s1, orderType, OrderTypeOf);
    WhereWhere(table, rg, o, ro);
    assert s2 == Where(table, ro);
    var s3 := Mask(s2, location, LocationOf);
    WhereWhere(table, ro, l, rol);
    assert s3 == Where(table, rol);
    WhereWhere(table, rol, MatchPred(agent, AgentOf), QueryPred(agent, location, orderType, range));
  }

  /** A range whose lower end exceeds its upper end lets no row through. */
  lemma EmptyRange(table: seq<Review>, agent: FilterVal, location: FilterVal, orderType: FilterVal, lo: real, hi: real)
    requires lo > hi
    ensures Query(table, agent, location, orderType, Some(RatingRange(lo, hi))) == []
  {
    WhereNone(table, QueryPred(agent, location, orderType, Some(RatingRange(lo, hi))));
  }

  /** What the API arguments mean for the query: the selected rows, the unconstrained case and
      the empty range. */
  lemma QuerySelects(table: seq<Review>, agent: Option<string>, location: Option<string>, orderType: Option<string>,
                     range: Option<RatingRange>)
    ensures forall x :: x in Query(table, ApiFilter(agent), ApiFilter(location), ApiFilter(orderType), range) <==>
      && x in table
      && (ApiNoFilter(agent) || agent == Some(x.agent))
      && (ApiNoFilter(location) || location == Some(x.location))
      && (ApiNoFilter(orderType) || orderType == Some(x.orderType))
      && (range.Some? ==> range.value.lo <= x.rating <= range.value.hi)
    ensures var p := QueryPred(ApiFilter(agent), ApiFilter(location), ApiFilter(orderType), range);
      SelectionOf(Query(table, ApiFilter(agent), ApiFilter(location), ApiFilter(orderType), range), table, p, Selected(table, p))
    ensures ApiNoFilter(agent) && ApiNoFilter(location) && ApiNoFilter(orderType) && range == None ==>
      Query(table, ApiFilter(agent), ApiFilter(location), ApiFilter(orderType), range) == table
    ensures range.Some? && range.value.lo > range.value.hi ==>
      Query(table, ApiFilter(agent), ApiFilter(location), ApiFilter(orderType), range) == []
  {
    var p := QueryPred(ApiFilter(agent), ApiFilter(location), ApiFilter(orderType), range);
    forall x
      ensures p(x) <==>
        && (ApiNoFilter(agent) || agent == Some(x.agent))
        && (ApiNoFilter(location) || location == Some(x.location))
        && (ApiNoFilter(orderType) || orderType == Some(x.orderType))
        && (range.Some? ==> range.value.lo <= x.rating <= range.value.hi)
    {
      assert Matches(ApiFilter(agent), x.agent) <==> ApiNoFilter(agent) || agent == Some(x.agent);
      assert Matches(ApiFilter(location), x.location) <==> ApiNoFilter(location) || location == Some(x.location);
      assert Matches(ApiFilter(orderType), x.orderType) <==> ApiNoFilter(orderType) || orderType == Some(x.orderType);
    }
    WhereSelects(table, p);
    if ApiNoFilter(agent) && ApiNoFilter(location) && ApiNoFilter(orderType) && range == None {
      WhereAll(table, p);
    }
    if range.Some? && range.value.lo > range.value.hi {
      EmptyRange(table, ApiFilter(agent), ApiFilter(location), ApiFilter(orderType), range.value.lo, range.value.hi);
    }
  }

  class DeliveryApi {
    /** `self.data`: the table as read, without coordinates. */
    var data: seq<Review>

    constructor (table: seq<Review>)
      ensures data == table
    {
      data := table;
    }

    /** `get_data_by_filters`: the rows of the table passing every given constraint, each once, in
        table order. `None`, `''` and `'All'` leave a column unconstrained; the rating range, when
        given, is inclusive at both ends. */
    function GetDataByFilters(agent: Option<string>, location: Option<string>, orderType: Option<string>,
                              ratingRange: Option<RatingRange>): (r: seq<Review>)
      reads this
      ensures forall x :: x in r <==>
        && x in data
        && (ApiNoFilter(agent) || agent == Some(x.agent))
        && (ApiNoFilter(location) || location == Some(x.location))
        && (ApiNoFilter(orderType) || orderType == Some(x.orderType))
        && (ratingRange.Some? ==> ratingRange.value.lo <= x.rating <= ratingRange.value.hi)
      ensures var p := QueryPred(ApiFilter(agent), ApiFilter(location), ApiFilter(orderType), ratingRange);
        SelectionOf(r, data, p, Selected(data, p))
      ensures ApiNoFilter(agent) && ApiNoFilter(location) && ApiNoFilter(orderType) && ratingRange == None ==>
        r == data
      ensures ratingRange.Some? && ratingRange.value.lo > ratingRange.value.hi ==> r == []
    {
      QuerySelects(data, agent, location, orderType, ratingRange);
      Query(data, ApiFilter(agent), ApiFilter(location), ApiFilter(orderType), ratingRange)
    }
  }
}
