/** The shared filter of every query: keep the rows whose agent and order type match the
    selected values, where a "no filter" value keeps everything. The API classes and the
    dashboard disagree on which raw values mean "no filter". */
module Filtering {
  import opened Wrappers
  import opened Seqs
  import opened Reviews

  /** A filter argument after the "no filter" sentinel has been recognised. */
  datatype FilterVal = NoFilter | Exact(value: string)

  /** `v` passes the filter. */
  predicate Matches(f: FilterVal, v: string)
  {
    match f
    case NoFilter => true
    case Exact(w) => v == w
  }

  /** The mask "the field of x passes f". */
  function MatchPred<T>(f: FilterVal, field: T -> string): T -> bool
  {
    x => Matches(f, field(x))
  }

  /** One step `if f: df = df[df[col] == f]`: with no filter the rows stay as they are. */
  function Mask<T(!new)>(s: seq<T>, f: FilterVal, field: T -> string): (r: seq<T>)
    ensures r == Where(s, MatchPred(f, field))
    ensures f.NoFilter? ==> r == s
  {
    if f.NoFilter? then
      WhereAll(s, MatchPred(f, field));
      s
    else Where(s, MatchPred(f, field))
  }

  /** The conjunction of the agent and order-type constraints. */
  function FilterPred(agent: FilterVal, orderType: FilterVal): Row -> bool
  {
    x => Matches(agent, Agent(x)) && Matches(orderType, OrderType(x))
  }

  /** The agent mask followed by the order-type mask. */
  function Filter(rows: seq<Row>, agent: FilterVal, orderType: FilterVal): (r: seq<Row>)
    ensures forall x :: x in r <==> x in rows && Matches(agent, Agent(x)) && Matches(orderType, OrderType(x))
    ensures r == Where(rows, FilterPred(agent, orderType))
  {
    WhereWhere(rows, MatchPred(agent, Agent), MatchPred(orderType, OrderType), FilterPred(agent, orderType));
    Mask(Mask(rows, agent, Agent), orderType, OrderType)
  }

  /** The filter keeps exactly the rows satisfying both constraints, each once, in source order. */
  lemma FilterSelects(rows: seq<Row>, agent: FilterVal, orderType: FilterVal)
    ensures SelectionOf(Filter(rows, agent, orderType), rows, FilterPred(agent, orderType),
                        Selected(rows, FilterPred(agent, orderType)))
  {
    WhereSelects(rows, FilterPred(agent, orderType));
  }

  /** Applying the order-type mask first gives the same rows. */
  lemma FilterOrderIrrelevant(rows: seq<Row>, agent: FilterVal, orderType: FilterVal)
    ensures Mask(Mask(rows, orderType, OrderType), agent, Agent) == Filter(rows, agent, orderType)
  {
    WhereWhere(rows, MatchPred(orderType, OrderType), MatchPred(agent, Agent), FilterPred(agent, orderType));
  }

  /** With neither constraint the whole table comes back unchanged, in order. */
  lemma FilterNothing(rows: seq<Row>)
    ensures Filter(rows, NoFilter, NoFilter) == rows
  {
    WhereAll(rows, FilterPred(NoFilter, NoFilter));
  }

  /** The filtered rows are geocoded when the table is. */
  lemma FilterKeepsGeocoded(rows: seq<Row>, agent: FilterVal, orderType: FilterVal)
    requires Geocoded(rows)
    ensures Geocoded(Filter(rows, agent, orderType))
  {
  }

  /** The argument values the API classes read as "no filter": the falsy ones and `'All'`. */
  predicate ApiNoFilter(arg: Option<string>)
  {
    arg == None || arg == Some("") || arg == Some("All")
  }

  /** `if value and value != 'All'` in the API classes: `None`, `''` and `'All'` disable the
      filter, anything else is an exact match. */
  function ApiFilter(arg: Option<string>): (f: FilterVal)
    ensures f == NoFilter <==> ApiNoFilter(arg)
    ensures f.Exact? ==> arg == Some(f.value)
    ensures forall v :: Matches(f, v) <==> ApiNoFilter(arg) || arg == Some(v)
  {
    match arg
    case None => NoFilter
    case Some(v) => if v == "" || v == "All" then NoFilter else Exact(v)
  }

  /** `if value != 'All'` in the dashboard: only the exact string `'All'` disables the filter. */
  function WidgetFilter(arg: string): (f: FilterVal)
    ensures f == NoFilter <==> arg == "All"
    ensures forall v :: Matches(f, v) <==> arg == "All" || v == arg
  {
    if arg == "All" then NoFilter else Exact(arg)
  }

  /** The two readings differ on the empty string: the API ignores it, the dashboard keeps only
      rows whose field is empty. */
  lemma EmptyStringReadings()
    ensures ApiFilter(Some("")) == NoFilter
    ensures WidgetFilter("") == Exact("")
  {
  }
}
